/**
  The name of an instance directory (poly_name) and the hex form of its
  MD5 hash (md5hash).  The digest itself comes from a crypto library and
  is a parameter `md5`; only the shape of its hex encoding matters here.
 */
module InstanceName {
  import opened Types

  newtype byte = x: int | 0 <= x < 256

  /** MD5_DIGEST_LENGTH. */
  const DigestLen: nat := 16

  /** What MD5() writes into its 16-byte output buffer. */
  type Digest = d: seq<byte> | |d| == DigestLen witness seq(16, _ => 0 as byte)

  /** A character of "0123456789abcdef". */
  predicate IsHexDigit(c: char) { '0' <= c <= '9' || 'a' <= c <= 'f' }

  predicate IsLowerHex(s: string) { forall i :: 0 <= i < |s| ==> IsHexDigit(s[i]) }

  /** The lower-case hex digit of a nibble. */
  function HexDigit(n: int): (c: char)
    requires 0 <= n < 16
    ensures IsHexDigit(c)
  {
    if n < 10 then ('0' as int + n) as char else ('a' as int + n - 10) as char
  }

  /** The value of a lower-case hex digit. */
  function DigitValue(c: char): (n: int)
    requires IsHexDigit(c)
    ensures 0 <= n < 16 && HexDigit(n) == c
  {
    if '0' <= c <= '9' then c as int - '0' as int else c as int - 'a' as int + 10
  }

  /** snprintf(to, 3, "%02x", b): two lower-case hex digits, high nibble first. */
  function HexByte(b: byte): (s: string)
    ensures |s| == 2 && IsLowerHex(s)
  {
    [HexDigit(b as int / 16), HexDigit(b as int % 16)]
  }

  /** The hex text md5hash builds from a digest. */
  function Hex(d: seq<byte>): (s: string)
    ensures |s| == 2 * |d|
  {
    if d == [] then [] else HexByte(d[0]) + Hex(d[1..])
  }

  /** Reading hex text back into bytes. */
  function Unhex(s: string): seq<byte>
    requires |s| % 2 == 0 && IsLowerHex(s)
  {
    if s == [] then []
    else [(DigitValue(s[0]) * 16 + DigitValue(s[1])) as byte] + Unhex(s[2..])
  }

  /** The hex text is lower-case hex throughout. */
  lemma {:induction false} HexIsLowerHex(d: seq<byte>)
    ensures IsLowerHex(Hex(d))
  {
    if d != [] {
      HexIsLowerHex(d[1..]);
      var s := Hex(d);
      assert s == HexByte(d[0]) + Hex(d[1..]);
      forall i | 0 <= i < |s|
        ensures IsHexDigit(s[i])
      {
        if i >= 2 {
          assert s[i] == Hex(d[1..])[i - 2];
        }
      }
    }
  }

  /** The encoding loses nothing: decoding it gives the digest back. */
  lemma {:induction false} HexRoundTrip(d: seq<byte>)
    ensures IsLowerHex(Hex(d)) && |Hex(d)| % 2 == 0 && Unhex(Hex(d)) == d
  {
    HexIsLowerHex(d);
    if d != [] {
      HexRoundTrip(d[1..]);
      var s := Hex(d);
      assert s[..2] == HexByte(d[0]);
      assert s[2..] == Hex(d[1..]);
      var b := d[0] as int;
      DigitOfNibble(b / 16);
      DigitOfNibble(b % 16);
    }
  }

  lemma DigitOfNibble(n: int)
    requires 0 <= n < 16
    ensures DigitValue(HexDigit(n)) == n
  {
  }

  lemma {:induction false} HexConcat(a: seq<byte>, b: seq<byte>)
    ensures Hex(a + b) == Hex(a) + Hex(b)
    decreases |a|
  {
    if a == [] {
      assert a + b == b;
    } else {
      assert (a + b)[1..] == a[1..] + b;
      HexConcat(a[1..], b);
    }
  }

  /** md5hash: the digest of the name, formatted byte by byte into a 33-byte buffer. */
  method Md5Hash(instname: string, md5: string -> Digest) returns (h: string)
    ensures h == Hex(md5(instname))
    ensures |h| == HashLen && IsLowerHex(h)
  {
    var digest := md5(instname);
    h := [];
    for i := 0 to DigestLen
      invariant h == Hex(digest[..i])
    {
      assert digest[..i + 1] == digest[..i] + [digest[i]];
      HexConcat(digest[..i], [digest[i]]);
      h := h + HexByte(digest[i]);
    }
    assert digest[..DigestLen] == digest;
    HexIsLowerHex(digest);
  }

  /** What the SELinux calls of poly_name report: form_context's result and the raw context. */
  datatype NameEnv = NameEnv(contextOk: bool, rawcon: Option<string>)

  /** The instance name before any hashing, by method. */
  function BaseName(m: Method, user: string, flags: Flags, env: NameEnv): Option<string> {
    match m
    case User => Some(user)
    case Level | Context =>
      if flags.withSelinux && env.rawcon.Some? then Some(env.rawcon.value + "_" + user) else None
    case TmpDir | TmpFs => Some("")
    case NoMethod => None
  }

  /** How many characters of a long name are kept before `_` and the hash. */
  const KeptLen: nat := MaxDirLen - 1 - HashLen

  /** poly_name: the instance name of a rule, or None for PAM_SESSION_ERR. */
  function PolyName(m: Method, user: string, flags: Flags, env: NameEnv,
                    md5: string -> Digest): (r: Option<string>)
    ensures r.Some? ==> |r.value| <= MaxDirLen
  {
    if flags.withSelinux && flags.selinuxEnabled && !env.contextOk then None
    else match BaseName(m, user, flags, env)
      case None => None
      case Some(name) =>
        if m == TmpDir || m == TmpFs then Some(name)
        else if flags.genHash then Some(Hex(md5(name)))
        else if |name| > MaxDirLen then Some(name[..KeptLen] + "_" + Hex(md5(name)))
        else Some(name)
  }

  /** poly_name fails exactly when form_context fails or the method has no name. */
  lemma PolyNameFails(m: Method, user: string, flags: Flags, env: NameEnv, md5: string -> Digest)
    ensures PolyName(m, user, flags, env, md5).None? <==>
              || (flags.withSelinux && flags.selinuxEnabled && !env.contextOk)
              || m == NoMethod
              || ((m == Level || m == Context) && (!flags.withSelinux || env.rawcon.None?))
  {
  }

  /** `tmpdir` and `tmpfs` rules get the empty name and are never hashed. */
  lemma PolyNameTmp(m: Method, user: string, flags: Flags, env: NameEnv, md5: string -> Digest)
    requires m == TmpDir || m == TmpFs
    requires PolyName(m, user, flags, env, md5).Some?
    ensures PolyName(m, user, flags, env, md5) == Some("")
  {
  }

  /** A `user` rule is named after the user while the name is short and gen_hash is off. */
  lemma PolyNameUser(user: string, flags: Flags, env: NameEnv, md5: string -> Digest)
    requires !(flags.withSelinux && flags.selinuxEnabled && !env.contextOk)
    requires !flags.genHash && |user| <= MaxDirLen
    ensures PolyName(User, user, flags, env, md5) == Some(user)
  {
  }

  /** With gen_hash the name is exactly the 32 lower-case hex characters of the hash. */
  lemma PolyNameHashed(m: Method, user: string, flags: Flags, env: NameEnv, md5: string -> Digest)
    requires flags.genHash && m != TmpDir && m != TmpFs
    requires PolyName(m, user, flags, env, md5).Some?
    ensures var r := PolyName(m, user, flags, env, md5).value;
            && r == Hex(md5(BaseName(m, user, flags, env).value))
            && |r| == HashLen && IsLowerHex(r)
  {
    HexIsLowerHex(md5(BaseName(m, user, flags, env).value));
  }

  /**
    Without gen_hash a name longer than NAMESPACE_MAX_DIR_LEN keeps its first 47 characters,
    then `_`, then the hash of the whole name: exactly NAMESPACE_MAX_DIR_LEN characters.
   */
  lemma PolyNameTruncated(m: Method, user: string, flags: Flags, env: NameEnv,
                          md5: string -> Digest)
    requires !flags.genHash && m != TmpDir && m != TmpFs
    requires PolyName(m, user, flags, env, md5).Some?
    requires |BaseName(m, user, flags, env).value| > MaxDirLen
    ensures var name := BaseName(m, user, flags, env).value;
            var r := PolyName(m, user, flags, env, md5).value;
            && |r| == MaxDirLen
            && r[..KeptLen] == name[..KeptLen]
            && r[KeptLen] == '_'
            && r[KeptLen + 1..] == Hex(md5(name))
  {
  }

  /** A level or context name is the raw context, `_`, then the user, while short and unhashed. */
  lemma PolyNameContext(m: Method, user: string, flags: Flags, env: NameEnv,
                        md5: string -> Digest)
    requires m == Level || m == Context
    requires flags.withSelinux && !flags.genHash && (flags.selinuxEnabled ==> env.contextOk)
    requires env.rawcon.Some? && |env.rawcon.value| + 1 + |user| <= MaxDirLen
    ensures PolyName(m, user, flags, env, md5) == Some(env.rawcon.value + "_" + user)
  {
  }
}
