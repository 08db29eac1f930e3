/**
  The reading of the namespace configuration file: process_line decides
  for one line whether it is blank, malformed or a rule, and
  parse_config_file runs it over the lines of the file and stops at the
  first line that fails.  The functions here are the specification the
  imperative parser in module Namespace is proved against.
 */
module ConfigParser {
  import opened Types
  import opened CStrings

  /** Why process_line jumps to `skipping`. */
  datatype Reject = MissingDir | MissingPrefix | MissingMethod | TooLong | IllegalMethod
                  | NotAbsolute | DotDot

  /** What one line of the file amounts to. */
  datatype LineOutcome = Blank | Rejected(reason: Reject) | Accepted(rule: PolyDir)

  /** The suffix mkdtemp() replaces, appended to the prefix of a `tmpdir` rule. */
  const TmpSuffix: string := "XXXXXX"

  /** The text process_line tokenizes: leading white space skipped, cut at '#' and at the newline. */
  function LineBody(line: string): string {
    CutAt(CutAt(SkipSpace(CString(line)), '#'), '\n')
  }

  /** The method field; `level` and `context` exist only in a build WITH_SELINUX. */
  function MethodOf(name: string, flags: Flags): Method {
    if name == "user" then User
    else if name == "tmpdir" then TmpDir
    else if name == "tmpfs" then TmpFs
    else if flags.withSelinux && name == "level" then (if flags.ctxtBasedInst then Level else User)
    else if flags.withSelinux && name == "context" then (if flags.ctxtBasedInst then Context else User)
    else NoMethod
  }

  /** A polyinstantiated directory spelled `$HOME` is the user's home directory. */
  function ExpandDir(dir: string, home: string): string {
    if dir == "$HOME" then home else dir
  }

  /** The first `$USER`, then the first `$HOME` of the result, replaced in the instance prefix. */
  function ExpandPrefix(prefix: string, user: string, home: string): string {
    ReplaceFirst(ReplaceFirst(prefix, "$USER", user), "$HOME", home)
  }

  /** The uids of the resolvable names, in list order; unknown names are dropped. */
  function Resolve(names: seq<string>, users: map<string, Passwd>): seq<Uid> {
    if names == [] then []
    else (if names[0] in users then [users[names[0]].uid] else []) + Resolve(names[1..], users)
  }

  /** Number of names the user database does not know. */
  function Unknown(names: seq<string>, users: map<string, Passwd>): nat {
    if names == [] then 0
    else (if names[0] in users then 0 else 1) + Unknown(names[1..], users)
  }

  /** The override-user field: a leading `~` sets `exclusive`, the rest is a comma list. */
  predicate IsExclusive(field: string) { |field| > 0 && field[0] == '~' }

  function UserList(field: string): string {
    if IsExclusive(field) then field[1..] else field
  }

  /** The rule a well-formed line stores, from its checked fields. */
  function MakeRule(dir: string, prefix: string, m: Method, uidField: Option<string>,
                    users: map<string, Passwd>): PolyDir
  {
    PolyDir(dir,
            if m == TmpDir then prefix + TmpSuffix else prefix,
            m,
            if uidField.Some? then Resolve(Split(UserList(uidField.value), ','), users) else [],
            uidField.Some? && IsExclusive(uidField.value))
  }

  /** The checks of process_line once the fields are expanded, in the order process_line makes them. */
  function CheckRule(dir: string, prefix: string, m: Method, uidField: Option<string>,
                     users: map<string, Passwd>): LineOutcome
  {
    if |dir| >= PathMax || |prefix| >= PathMax then Rejected(TooLong)
    else if m == TmpDir && PathMax - |prefix| < 7 then Rejected(TooLong)
    else if m == NoMethod then Rejected(IllegalMethod)
    else if !Absolute(dir) || (m != TmpFs && !Absolute(prefix)) then Rejected(NotAbsolute)
    else if Contains(dir, "..") || Contains(prefix, "..") then Rejected(DotDot)
    else Accepted(MakeRule(dir, prefix, m, uidField, users))
  }

  /** The strtok_r fields of a non-blank line: three are needed, a fourth is optional. */
  function ParseFields(toks: seq<string>, home: string, user: string,
                       users: map<string, Passwd>, flags: Flags): LineOutcome
  {
    if |toks| < 1 then Rejected(MissingDir)
    else if |toks| < 2 then Rejected(MissingPrefix)
    else if |toks| < 3 then Rejected(MissingMethod)
    else CheckRule(ExpandDir(toks[0], home), ExpandPrefix(toks[1], user, home),
                   MethodOf(toks[2], flags), if |toks| >= 4 then Some(toks[3]) else None, users)
  }

  /** process_line: the outcome of one line of the file. */
  function ParseLine(line: string, home: string, user: string, users: map<string, Passwd>,
                     flags: Flags): LineOutcome
  {
    var body := LineBody(line);
    if body == [] then Blank else ParseFields(Tokens(body), home, user, users, flags)
  }

  /** The value process_line returns for an outcome. */
  function LineStatus(o: LineOutcome, flags: Flags): Status {
    if o.Rejected? && !flags.ignConfigErr then ServiceErr else Success
  }

  /** The rules process_line appends for an outcome. */
  function Added(o: LineOutcome): seq<PolyDir> {
    if o.Accepted? then [o.rule] else []
  }

  /** getline(): the file split after each newline; the last line may lack one. */
  function GetLines(content: string): (lines: seq<string>)
    ensures forall i :: 0 <= i < |lines| ==> lines[i] != []
    decreases |content|
  {
    match IndexOf(content, '\n')
      case None => if content == [] then [] else [content]
      case Some(k) => [content[..k + 1]] + GetLines(content[k + 1..])
  }

  /** Joining lines back into text. */
  function Join(lines: seq<string>): string {
    if lines == [] then [] else lines[0] + Join(lines[1..])
  }

  /** The outcome of every line of the file. */
  function Outcomes(lines: seq<string>, home: string, user: string,
                    users: map<string, Passwd>, flags: Flags): seq<LineOutcome>
  {
    seq(|lines|, k requires 0 <= k < |lines| => ParseLine(lines[k], home, user, users, flags))
  }

  /** The loop of parse_config_file over line outcomes: stop at the first failing line. */
  function RunLines(os: seq<LineOutcome>, flags: Flags): (Status, seq<PolyDir>)
  {
    if os == [] then (Success, [])
    else if LineStatus(os[0], flags) != Success then (ServiceErr, [])
    else
      var rest := RunLines(os[1..], flags);
      (rest.0, Added(os[0]) + rest.1)
  }

  /** The rules of the accepted lines, in file order. */
  function AllAdded(os: seq<LineOutcome>): seq<PolyDir> {
    if os == [] then [] else Added(os[0]) + AllAdded(os[1..])
  }

  /** parse_config_file: the home directory lookup, the file, then the lines. */
  function ParseConfig(file: Option<string>, user: string, users: map<string, Passwd>,
                       flags: Flags): (Status, seq<PolyDir>)
  {
    if user !in users then (SessionErr, [])
    else if file.None? then (ServiceErr, [])
    else RunLines(Outcomes(GetLines(file.value), users[user].home, user, users, flags), flags)
  }

  /** The invariant every stored rule satisfies. */
  predicate WellFormed(r: PolyDir) {
    && Absolute(r.dir) && |r.dir| < PathMax && !Contains(r.dir, "..")
    && |r.instancePrefix| < PathMax && !Contains(r.instancePrefix, "..")
    && (r.meth != TmpFs ==> Absolute(r.instancePrefix))
    && r.meth != NoMethod
  }

  // ---------------------------------------------------------------------
  // Properties of the line parser

  /** A line with nothing before its comment or newline adds no rule and succeeds. */
  lemma BlankLineAddsNothing(line: string, home: string, user: string,
                             users: map<string, Passwd>, flags: Flags)
    requires LineBody(line) == []
    ensures ParseLine(line, home, user, users, flags) == Blank
    ensures LineStatus(ParseLine(line, home, user, users, flags), flags) == Success
    ensures Added(ParseLine(line, home, user, users, flags)) == []
  {
  }

  /** A line whose first non-blank character is '#' is blank. */
  lemma CommentLineIsBlank(line: string)
    requires '\0' !in line
    requires SkipSpace(line) != [] && SkipSpace(line)[0] == '#'
    ensures LineBody(line) == []
  {
    CutNone(line, '\0');
  }

  /** A rejected line is an error, or under ignore_config_error a success; it adds nothing. */
  lemma RejectedLine(o: LineOutcome, flags: Flags)
    requires o.Rejected?
    ensures Added(o) == []
    ensures LineStatus(o, flags) == (if flags.ignConfigErr then Success else ServiceErr)
  {
  }

  /** A non-blank line with fewer than three fields is rejected. */
  lemma MissingFieldRejected(toks: seq<string>, home: string, user: string,
                             users: map<string, Passwd>, flags: Flags)
    requires |toks| < 3
    ensures ParseFields(toks, home, user, users, flags).Rejected?
    ensures !flags.ignConfigErr ==>
              LineStatus(ParseFields(toks, home, user, users, flags), flags) == ServiceErr
  {
  }

  /**
    The checked fields are rejected exactly when the method is unknown, a path is too long
    (for `tmpdir` also when fewer than 7 bytes remain for the template), the directory or
    (unless `tmpfs`) the prefix is not absolute, or either contains `..`.
   */
  lemma CheckRuleRejects(dir: string, prefix: string, m: Method, uidField: Option<string>,
                         users: map<string, Passwd>)
    ensures CheckRule(dir, prefix, m, uidField, users).Rejected? <==>
              || |dir| >= PathMax || |prefix| >= PathMax
              || (m == TmpDir && PathMax - |prefix| < 7)
              || m == NoMethod
              || !Absolute(dir) || (m != TmpFs && !Absolute(prefix))
              || Contains(dir, "..") || Contains(prefix, "..")
    ensures !CheckRule(dir, prefix, m, uidField, users).Blank?
  {
  }

  /** Appending the mkdtemp template never creates a `..`. */
  lemma {:induction false} SuffixKeepsNoDotDot(p: string)
    requires !Contains(p, "..")
    ensures !Contains(p + TmpSuffix, "..")
  {
    FindFirst(p, "..");
    var s := p + TmpSuffix;
    forall j | 0 <= j
      ensures !OccursAt(s, "..", j)
    {
      if j + 2 <= |p| {
        assert s[j..j + 2] == p[j..j + 2];
        assert !OccursAt(p, "..", j);
      } else if j + 2 <= |s| {
        assert s[j + 1] == 'X';
        assert s[j..j + 2][1] == s[j + 1];
      }
    }
    FindFirst(s, "..");
  }

  /** Every rule process_line stores is absolute, bounded and free of `..`. */
  lemma AcceptedIsWellFormed(dir: string, prefix: string, m: Method, uidField: Option<string>,
                             users: map<string, Passwd>)
    requires CheckRule(dir, prefix, m, uidField, users).Accepted?
    ensures WellFormed(CheckRule(dir, prefix, m, uidField, users).rule)
  {
    if m == TmpDir {
      SuffixKeepsNoDotDot(prefix);
    }
  }

  /** A polyinstantiated directory written `$HOME` becomes the home directory. */
  lemma HomeDirSubstituted(toks: seq<string>, home: string, user: string,
                           users: map<string, Passwd>, flags: Flags)
    requires ParseFields(toks, home, user, users, flags).Accepted?
    requires toks[0] == "$HOME"
    ensures ParseFields(toks, home, user, users, flags).rule.dir == home
  {
  }

  /** Replacing the first occurrence keeps the text before and after it verbatim. */
  lemma ReplaceFirstShape(s: string, pat: string, rep: string)
    ensures Find(s, pat).None? ==> ReplaceFirst(s, pat, rep) == s
    ensures Find(s, pat).Some? ==>
      var i := Find(s, pat).value;
      && ReplaceFirst(s, pat, rep) == s[..i] + rep + s[i + |pat|..]
      && OccursAt(s, pat, i)
      && forall j :: 0 <= j < i ==> !OccursAt(s, pat, j)
  {
    FindFirst(s, pat);
  }

  /** The stored prefix: the first `$USER` replaced by the user, then the first `$HOME` by the home directory. */
  lemma PrefixExpansion(p: string, user: string, home: string)
    ensures var q := ReplaceFirst(p, "$USER", user);
            && (Find(p, "$USER").Some? ==>
                  q == p[..Find(p, "$USER").value] + user + p[Find(p, "$USER").value + 5..])
            && (Find(p, "$USER").None? ==> q == p)
            && (Find(q, "$HOME").Some? ==>
                  ExpandPrefix(p, user, home)
                  == q[..Find(q, "$HOME").value] + home + q[Find(q, "$HOME").value + 5..])
            && (Find(q, "$HOME").None? ==> ExpandPrefix(p, user, home) == q)
  {
  }

  /** A prefix without `$USER` and `$HOME` is stored as written. */
  lemma PrefixVerbatim(p: string, user: string, home: string)
    requires !Contains(p, "$USER") && !Contains(p, "$HOME")
    ensures ExpandPrefix(p, user, home) == p
  {
  }

  /** A `tmpdir` rule stores the expanded prefix followed by `XXXXXX`. */
  lemma TmpdirTemplate(toks: seq<string>, home: string, user: string,
                       users: map<string, Passwd>, flags: Flags)
    requires ParseFields(toks, home, user, users, flags).Accepted?
    requires ParseFields(toks, home, user, users, flags).rule.meth == TmpDir
    ensures ParseFields(toks, home, user, users, flags).rule.instancePrefix
            == ExpandPrefix(toks[1], user, home) + TmpSuffix
  {
  }

  /** A `tmpdir` line whose expanded prefix leaves fewer than 7 bytes of the buffer is rejected. */
  lemma TmpdirNoRoom(toks: seq<string>, home: string, user: string,
                     users: map<string, Passwd>, flags: Flags)
    requires |toks| >= 3 && MethodOf(toks[2], flags) == TmpDir
    requires PathMax - 7 < |ExpandPrefix(toks[1], user, home)|
    ensures ParseFields(toks, home, user, users, flags) == Rejected(TooLong)
  {
  }

  /** The comma list has one more field than it has commas. */
  lemma {:induction false} SplitCount(s: string, c: char)
    ensures |Split(s, c)| == Count(s, c) + 1
    decreases |s|
  {
    match IndexOf(s, c)
    case None =>
      CountAbsent(s, c);
    case Some(k) =>
      SplitCount(s[k + 1..], c);
      CountConcat(s[..k], s[k..], c);
      CountAbsent(s[..k], c);
      assert s[k..][1..] == s[k + 1..];
      assert s[..k] + s[k..] == s;
  }

  lemma {:induction false} CountAbsent(s: string, c: char)
    requires c !in s
    ensures Count(s, c) == 0
    decreases |s|
  {
    if s != [] {
      assert c !in s[1..];
      CountAbsent(s[1..], c);
    }
  }

  lemma {:induction false} CountConcat(a: string, b: string, c: char)
    ensures Count(a + b, c) == Count(a, c) + Count(b, c)
    decreases |a|
  {
    if a != [] {
      assert (a + b)[1..] == a[1..] + b;
      CountConcat(a[1..], b, c);
    } else {
      assert a + b == b;
    }
  }

  /** num_uids: every resolvable name contributes its uid, every unknown one decrements the count. */
  lemma {:induction false} ResolvedCount(names: seq<string>, users: map<string, Passwd>)
    ensures |Resolve(names, users)| == |names| - Unknown(names, users)
    ensures Unknown(names, users) <= |names|
    decreases |names|
  {
    if names != [] {
      ResolvedCount(names[1..], users);
    }
  }

  /** The uids are stored in list order: each one is the uid of a name of the list. */
  lemma {:induction false} ResolvedInOrder(names: seq<string>, users: map<string, Passwd>)
    ensures forall n :: n in names && n in users ==> users[n].uid in Resolve(names, users)
    ensures forall u :: u in Resolve(names, users) ==>
              exists n :: n in names && n in users && users[n].uid == u
    decreases |names|
  {
    if names != [] {
      ResolvedInOrder(names[1..], users);
      assert forall n :: n in names ==> n == names[0] || n in names[1..];
    }
  }

  /** Resolution keeps list order: resolving two lists one after the other resolves their concatenation. */
  lemma {:induction false} ResolveConcat(a: seq<string>, b: seq<string>, users: map<string, Passwd>)
    ensures Resolve(a + b, users) == Resolve(a, users) + Resolve(b, users)
    decreases |a|
  {
    if a != [] {
      assert (a + b)[1..] == a[1..] + b;
      ResolveConcat(a[1..], b, users);
    } else {
      assert a + b == b;
    }
  }

  /** The override field of an accepted line: `~` gives `exclusive`, the list gives the uids. */
  lemma OverrideField(toks: seq<string>, home: string, user: string,
                      users: map<string, Passwd>, flags: Flags)
    requires ParseFields(toks, home, user, users, flags).Accepted?
    requires |toks| >= 4 && toks[3] != []
    ensures var f := toks[3];
            var r := ParseFields(toks, home, user, users, flags).rule;
            && r.exclusive == (f[0] == '~')
            && r.uids == Resolve(Split(UserList(f), ','), users)
            && |r.uids| == Count(UserList(f), ',') + 1 - Unknown(Split(UserList(f), ','), users)
  {
    var f := toks[3];
    SplitCount(UserList(f), ',');
    ResolvedCount(Split(UserList(f), ','), users);
  }

  // ---------------------------------------------------------------------
  // Formatting a rule and parsing it back

  /** A field that survives tokenization unchanged. */
  predicate PlainField(f: string) {
    && f != []
    && forall i :: 0 <= i < |f| ==> !IsDelim(f[i]) && !IsSpace(f[i]) && f[i] != '#' && f[i] != '\0'
  }

  /** Fields separated by single spaces. */
  function Spaced(fields: seq<string>): string
    requires fields != []
  {
    if |fields| == 1 then fields[0] else fields[0] + " " + Spaced(fields[1..])
  }

  /** The configuration line of a rule: directory, instance prefix, method and, when given, the override users. */
  function FormatLine(dir: string, prefix: string, name: string, uids: Option<string>): string {
    Spaced([dir, prefix, name] + if uids.Some? then [uids.value] else []) + "\n"
  }

  /** Every field survives tokenization. */
  predicate PlainFields(fields: seq<string>) {
    forall i :: 0 <= i < |fields| ==> PlainField(fields[i])
  }

  lemma {:induction false} TokenLenOfField(f: string, rest: string)
    requires forall i :: 0 <= i < |f| ==> !IsDelim(f[i])
    requires rest == [] || IsDelim(rest[0])
    ensures TokenLen(f + rest) == |f|
    decreases |f|
  {
    if f != [] {
      assert (f + rest)[1..] == f[1..] + rest;
      TokenLenOfField(f[1..], rest);
    } else {
      assert f + rest == rest;
    }
  }

  /** strtok_r skips any leading delimiter. */
  lemma TokensSkipDelim(rest: string)
    ensures Tokens([' '] + rest) == Tokens(rest)
  {
    var s := [' '] + rest;
    assert s[1..] == rest;
    assert s[DelimLen(s)..] == rest[DelimLen(rest)..];
  }

  /** A field followed by a space and more text is the first token. */
  lemma {:induction false} TokensCons(f: string, rest: string)
    requires PlainField(f)
    ensures Tokens(f + [' '] + rest) == [f] + Tokens(rest)
  {
    var s := f + [' '] + rest;
    assert s == f + ([' '] + rest);
    assert !IsDelim(s[0]);
    assert DelimLen(s) == 0;
    assert s[0..] == s;
    TokenLenOfField(f, [' '] + rest);
    assert s[..|f|] == f;
    assert s[|f|..] == [' '] + rest;
    TokensSkipDelim(rest);
  }

  /** A field alone is one token. */
  lemma TokensSingle(f: string)
    requires PlainField(f)
    ensures Tokens(f) == [f]
  {
    assert !IsDelim(f[0]);
    assert DelimLen(f) == 0;
    assert f[0..] == f;
    TokenLenOfField(f, []);
    assert f + [] == f;
    assert f[|f|..] == [];
  }

  /** strtok_r gives the spaced fields back. */
  lemma {:induction false} SpacedTokens(fields: seq<string>)
    requires fields != [] && PlainFields(fields)
    ensures Tokens(Spaced(fields)) == fields
    decreases |fields|
  {
    if |fields| == 1 {
      TokensSingle(fields[0]);
    } else {
      var rest := fields[1..];
      assert forall i :: 0 <= i < |rest| ==> rest[i] == fields[i + 1];
      SpacedTokens(rest);
      TokensCons(fields[0], Spaced(rest));
      assert fields == [fields[0]] + rest;
    }
  }

  /** Spaced plain fields hold no NUL, `#` or newline, and start with the first field. */
  lemma {:induction false} SpacedClean(fields: seq<string>)
    requires fields != [] && PlainFields(fields)
    ensures var s := Spaced(fields);
            && '\0' !in s && '#' !in s && '\n' !in s
            && s[0] == fields[0][0]
    decreases |fields|
  {
    var f := fields[0];
    assert '\0' !in f && '#' !in f && '\n' !in f by {
      assert PlainField(f);
    }
    if |fields| > 1 {
      var rest := fields[1..];
      assert forall i :: 0 <= i < |rest| ==> rest[i] == fields[i + 1];
      SpacedClean(rest);
    }
  }

  /** The body of a formatted line is the spaced fields. */
  lemma FormattedBody(fields: seq<string>)
    requires fields != [] && PlainFields(fields)
    ensures LineBody(Spaced(fields) + "\n") == Spaced(fields)
  {
    var text := Spaced(fields);
    var line := text + "\n";
    SpacedClean(fields);
    assert PlainField(fields[0]);
    assert '\0' !in line;
    CutNone(line, '\0');
    assert line[0] == text[0];
    assert SkipSpace(line) == line;
    assert '#' !in line;
    CutNone(line, '#');
    CutFirst(text, '\n');
  }

  lemma CutNone(s: string, c: char)
    requires c !in s
    ensures CutAt(s, c) == s
  {
  }

  lemma CutFirst(text: string, c: char)
    requires c !in text
    ensures CutAt(text + [c], c) == text
  {
    var s := text + [c];
    assert s[|text|] == c;
    assert s[..|text|] == text;
  }

  /**
    Parsing a formatted rule gives the rule back: a line with plain fields, an absolute
    directory and prefix, no `..`, no variables and a short enough prefix; the override
    field, when there is one, is kept as the rule's user list and `~`.  The domain is
    narrowed on purpose (an absolute prefix with tmpdir's spare bytes for every method);
    CheckRuleRejects states the exact bounds.
   */
  lemma FormatParseRoundTrip(dir: string, prefix: string, name: string, uids: Option<string>, home: string,
                             user: string, users: map<string, Passwd>, flags: Flags)
    requires PlainField(dir) && PlainField(prefix) && PlainField(name)
    requires uids.Some? ==> PlainField(uids.value)
    requires Absolute(dir) && Absolute(prefix)
    requires |dir| < PathMax && |prefix| < PathMax - 6
    requires !Contains(dir, "..") && !Contains(prefix, "..")
    requires !Contains(prefix, "$USER") && !Contains(prefix, "$HOME")
    requires MethodOf(name, flags) != NoMethod
    ensures ParseLine(FormatLine(dir, prefix, name, uids), home, user, users, flags)
            == Accepted(MakeRule(dir, prefix, MethodOf(name, flags), uids, users))
  {
    var fields := [dir, prefix, name] + if uids.Some? then [uids.value] else [];
    assert PlainFields(fields);
    FormattedBody(fields);
    SpacedTokens(fields);
    PlainFieldsExpand(dir, prefix, name, uids, home, user, users, flags);
    PlainRuleAccepted(dir, prefix, MethodOf(name, flags), uids, users);
  }

  lemma PlainFieldsExpand(dir: string, prefix: string, name: string, uids: Option<string>, home: string,
                          user: string, users: map<string, Passwd>, flags: Flags)
    requires Absolute(dir)
    requires !Contains(prefix, "$USER") && !Contains(prefix, "$HOME")
    ensures ParseFields([dir, prefix, name] + if uids.Some? then [uids.value] else [], home, user, users, flags)
            == CheckRule(dir, prefix, MethodOf(name, flags), uids, users)
  {
    PrefixVerbatim(prefix, user, home);
    assert dir != "$HOME";
  }

  lemma PlainRuleAccepted(dir: string, prefix: string, m: Method, uids: Option<string>, users: map<string, Passwd>)
    requires Absolute(dir) && Absolute(prefix)
    requires |dir| < PathMax && |prefix| < PathMax - 6
    requires !Contains(dir, "..") && !Contains(prefix, "..")
    requires m != NoMethod
    ensures CheckRule(dir, prefix, m, uids, users) == Accepted(MakeRule(dir, prefix, m, uids, users))
  {
  }

  // ---------------------------------------------------------------------
  // Properties of the line loop of parse_config_file

  /** parse_config_file either succeeds, every line having succeeded, with the rules of the valid lines in order... */
  lemma {:induction false} RunLinesSuccess(os: seq<LineOutcome>, flags: Flags)
    requires RunLines(os, flags).0 == Success
    ensures forall i :: 0 <= i < |os| ==> LineStatus(os[i], flags) == Success
    ensures RunLines(os, flags).1 == AllAdded(os)
    decreases |os|
  {
    if os != [] {
      RunLinesSuccess(os[1..], flags);
      assert forall i :: 0 < i < |os| ==> os[i] == os[1..][i - 1];
    }
  }

  /** ... or fails at the first failing line, after appending the rules of the lines before it. */
  lemma {:induction false} RunLinesFailure(os: seq<LineOutcome>, flags: Flags)
    requires RunLines(os, flags).0 != Success
    ensures RunLines(os, flags).0 == ServiceErr
    ensures exists k :: FailsFirstAt(os, flags, k)
    decreases |os|
  {
    if LineStatus(os[0], flags) != Success {
      assert os[..0] == [];
      assert FailsFirstAt(os, flags, 0);
    } else {
      RunLinesFailure(os[1..], flags);
      var k :| FailsFirstAt(os[1..], flags, k);
      FailsFirstAtCons(os, flags, k);
    }
  }

  /** Line k is the first line that fails, and the rules kept are those of the lines before it. */
  ghost predicate FailsFirstAt(os: seq<LineOutcome>, flags: Flags, k: int) {
    && 0 <= k < |os|
    && LineStatus(os[k], flags) != Success
    && (forall i :: 0 <= i < k ==> LineStatus(os[i], flags) == Success)
    && RunLines(os, flags).1 == AllAdded(os[..k])
  }

  lemma FailsFirstAtCons(os: seq<LineOutcome>, flags: Flags, k: int)
    requires os != [] && LineStatus(os[0], flags) == Success
    requires FailsFirstAt(os[1..], flags, k)
    ensures FailsFirstAt(os, flags, k + 1)
  {
    assert os[..k + 1][1..] == os[1..][..k];
    assert forall i :: 0 < i < k + 1 ==> os[i] == os[1..][i - 1];
  }

  /** Under ignore_config_error no line fails, so every valid line becomes a rule. */
  lemma {:induction false} LenientRunKeepsValidLines(os: seq<LineOutcome>, flags: Flags)
    requires flags.ignConfigErr
    ensures RunLines(os, flags) == (Success, AllAdded(os))
    decreases |os|
  {
    if os != [] {
      LenientRunKeepsValidLines(os[1..], flags);
    }
  }

  /** getline() loses nothing: the lines joined give the file back. */
  lemma {:induction false} GetLinesJoin(content: string)
    ensures Join(GetLines(content)) == content
    decreases |content|
  {
    match IndexOf(content, '\n')
    case None =>
      if content != [] {
        assert Join([content]) == content + Join([]);
      }
    case Some(k) =>
      GetLinesJoin(content[k + 1..]);
      var ls := GetLines(content);
      assert ls[0] == content[..k + 1];
      assert ls[1..] == GetLines(content[k + 1..]);
      assert content[..k + 1] + content[k + 1..] == content;
  }

  /** Every line but the last ends with its newline. */
  predicate NewlineTerminated(ls: seq<string>) {
    forall i :: 0 <= i < |ls| - 1 ==> ls[i] != [] && ls[i][|ls[i]| - 1] == '\n'
  }

  /** No line holds a newline before its last character. */
  predicate NoInnerNewline(ls: seq<string>) {
    forall i :: 0 <= i < |ls| ==> ls[i] != [] && '\n' !in ls[i][..|ls[i]| - 1]
  }

  /** getline() cuts the file exactly after each newline. */
  lemma {:induction false} GetLinesEnds(content: string)
    ensures NewlineTerminated(GetLines(content))
    ensures NoInnerNewline(GetLines(content))
    decreases |content|
  {
    match IndexOf(content, '\n')
    case None =>
      if content != [] {
        var head := content[..|content| - 1];
        assert forall i :: 0 <= i < |head| ==> head[i] == content[i];
        assert GetLines(content) == [content];
      }
    case Some(k) =>
      GetLinesEnds(content[k + 1..]);
      var ls := GetLines(content);
      var rest := GetLines(content[k + 1..]);
      assert ls == [content[..k + 1]] + rest;
      assert ls[0][..|ls[0]| - 1] == content[..k];
      assert ls[0][k] == '\n';
      assert forall i :: 0 < i < |ls| ==> ls[i] == rest[i - 1];
  }
}
