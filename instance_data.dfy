/**
  The per-session instance data of pam_namespace (struct instance_data):
  the user, the uid and the option flags of the session, and the list of
  rules read from the configuration file.  The list is the only state the
  module mutates; its operations are proved against the functions of
  ConfigParser.
 */
module Namespace {
  import opened Types
  import opened CStrings
  import opened ConfigParser

  class InstanceData {
    /** The user the session is opened for (PAM_USER). */
    const user: string
    /** That user's uid. */
    const uid: Uid
    /** The options of the session. */
    const flags: Flags
    /** The linked list of rules, head first. */
    var polydirs: seq<PolyDir>

    constructor (user: string, uid: Uid, flags: Flags)
      ensures this.user == user && this.uid == uid && this.flags == flags
      ensures polydirs == []
    {
      this.user := user;
      this.uid := uid;
      this.flags := flags;
      polydirs := [];
    }

    /** add_polydir_entry: a copy of the rule goes to the tail of the list. */
    method AddPolydirEntry(ent: PolyDir)
      modifies this
      ensures polydirs == old(polydirs) + [ent]
    {
      var pent := CopyEnt(ent);
      polydirs := polydirs + [pent];
    }

    /** del_polydir_list: the entries are released from the head on. */
    method DelPolydirList()
      modifies this
      ensures polydirs == []
    {
      while polydirs != []
        decreases |polydirs|
      {
        polydirs := polydirs[1..];
      }
    }

    /**
      process_line: the line is tokenized and checked; a rule is appended when it is
      valid, and a malformed line is an error unless ignore_config_error is set.
     */
    method ProcessLine(line: string, home: string, users: map<string, Passwd>)
      returns (rc: Status)
      modifies this
      ensures rc == LineStatus(ParseLine(line, home, user, users, flags), flags)
      ensures polydirs == old(polydirs) + Added(ParseLine(line, home, user, users, flags))
    {
      var skip := if flags.ignConfigErr then Success else ServiceErr;
      var s := CString(line);
      var i := 0;
      while i < |s| && IsSpace(s[i])
        invariant 0 <= i <= |s|
        invariant forall k :: 0 <= k < i ==> IsSpace(s[k])
      {
        i := i + 1;
      }
      SkipSpaceStops(s, i);
      var body := CutAt(CutAt(s[i..], '#'), '\n');
      assert body == LineBody(line);
      if body == [] {
        return Success;
      }
      var toks := Tokens(body);
      if |toks| < 3 {
        return skip;
      }
      var dir := ExpandDir(toks[0], home);
      var prefix := ExpandPrefix(toks[1], user, home);
      var m := MethodOf(toks[2], flags);
      var uidField := if |toks| >= 4 then Some(toks[3]) else None;
      rc := CheckAndAdd(dir, prefix, m, uidField, users);
    }

    /**
      The second half of process_line, once the fields are expanded: the length, method,
      absolute-path and `..` checks, then the override list, then the new list entry.
     */
    method CheckAndAdd(dir: string, prefix: string, m: Method, uidField: Option<string>,
                       users: map<string, Passwd>) returns (rc: Status)
      requires uidField.Some? ==> uidField.value != []
      modifies this
      ensures rc == LineStatus(CheckRule(dir, prefix, m, uidField, users), flags)
      ensures polydirs == old(polydirs) + Added(CheckRule(dir, prefix, m, uidField, users))
    {
      var skip := if flags.ignConfigErr then Success else ServiceErr;
      if |dir| >= PathMax || |prefix| >= PathMax {
        return skip;
      }
      var stored := prefix;
      if m == TmpDir {
        if PathMax - |prefix| < 7 {
          return skip;
        }
        stored := prefix + TmpSuffix;
      }
      if m == NoMethod {
        return skip;
      }
      if !Absolute(dir) || (m != TmpFs && !Absolute(prefix)) {
        return skip;
      }
      if Contains(dir, "..") || Contains(prefix, "..") {
        return skip;
      }
      var uids: seq<Uid> := [];
      var exclusive := false;
      if uidField.Some? {
        var list := uidField.value;
        if list[0] == '~' {
          exclusive := true;
          list := list[1..];
        }
        var num;
        uids, num := ResolveUids(list, users);
      }
      AddPolydirEntry(PolyDir(dir, stored, m, uids, exclusive));
      return Success;
    }

    /**
      parse_config_file: the user's home directory, then every line of the file in order,
      stopping at the first line that fails.  The rules of the lines before it stay in the list.
     */
    method ParseConfigFile(file: Option<string>, users: map<string, Passwd>) returns (rc: Status)
      modifies this
      ensures rc == ParseConfig(file, user, users, flags).0
      ensures polydirs == old(polydirs) + ParseConfig(file, user, users, flags).1
    {
      if user !in users {
        return SessionErr;
      }
      var home := users[user].home;
      if file.None? {
        return ServiceErr;
      }
      var lines := GetLines(file.value);
      ghost var os := LineOutcomes(lines, home, user, users, flags);
      var i := 0;
      assert os[..0] == [] && os[0..] == os;
      assert AllAdded(os[..0]) == [];
      while i < |lines|
        invariant 0 <= i <= |lines|
        invariant polydirs == old(polydirs) + AllAdded(os[..i])
        invariant RunLines(os, flags).0 == RunLines(os[i..], flags).0
        invariant RunLines(os, flags).1 == AllAdded(os[..i]) + RunLines(os[i..], flags).1
      {
        ghost var before := polydirs;
        rc := ProcessLine(lines[i], home, users);
        LoopStep(os, i, flags, rc, old(polydirs), before, polydirs);
        if rc != Success {
          OutcomesAre(lines, os, home, user, users, flags);
          return ServiceErr;
        }
        i := i + 1;
      }
      assert os[i..] == [];
      OutcomesAre(lines, os, home, user, users, flags);
      return Success;
    }
  }

  /** copy_ent: the uid array is copied element by element into a new one. */
  method CopyEnt(ent: PolyDir) returns (pent: PolyDir)
    ensures pent == ent
  {
    var uid := new Uid[|ent.uids|];
    for i := 0 to |ent.uids|
      invariant uid[..i] == ent.uids[..i]
    {
      uid[i] := ent.uids[i];
    }
    assert uid[..] == ent.uids;
    pent := PolyDir(ent.dir, ent.instancePrefix, ent.meth, uid[..], ent.exclusive);
  }

  /**
    The override list of process_line: one pass counts the comma-separated names, a second
    looks each one up, storing the uids of the known names and decrementing the count for
    each unknown one.
   */
  method ResolveUids(list: string, users: map<string, Passwd>) returns (uids: seq<Uid>, num: nat)
    ensures uids == Resolve(Split(list, ','), users)
    ensures num == |uids|
  {
    ghost var fields := Split(list, ',');
    var count := CountFields(list);
    var buf := new Uid[count];
    num := count;
    var j := 0;
    var rest := list;
    var i := 0;
    while i < count
      invariant 0 <= i <= count && 0 <= j <= i
      invariant i < count ==> Split(rest, ',') == fields[i..]
      invariant buf[..j] == Resolve(fields[..i], users)
      invariant num == count - i + j
    {
      NextField(rest, fields, i);
      var name := CutAt(rest, ',');
      ResolveSnoc(fields, i, users);
      if name in users {
        buf[j] := users[name].uid;
        assert buf[..j + 1] == Resolve(fields[..i], users) + [users[name].uid];
        j := j + 1;
      } else {
        num := num - 1;
      }
      var sep := IndexOf(rest, ',');
      if sep.Some? {
        rest := rest[sep.value + 1..];
        assert Split(rest, ',') == fields[i + 1..];
      }
      i := i + 1;
    }
    assert fields[..i] == fields;
    uids := buf[..j];
  }

  /** The counting pass over the override list: one field more than there are commas. */
  method CountFields(list: string) returns (count: nat)
    ensures count == |Split(list, ',')|
  {
    count := 1;
    var pos := 0;
    var sep := IndexOf(list, ',');
    while sep.Some?
      invariant 0 <= pos <= |list|
      invariant sep == IndexOf(list[pos..], ',')
      invariant count + |Split(list[pos..], ',')| == |Split(list, ',')| + 1
      decreases |list| - pos
    {
      assert list[pos..][sep.value + 1..] == list[pos + sep.value + 1..];
      pos := pos + sep.value + 1;
      count := count + 1;
      sep := IndexOf(list[pos..], ',');
    }
  }

  /** One line of the loop of parse_config_file: a failing line ends it, a succeeding one contributes its rules. */
  lemma RunLinesStep(os: seq<LineOutcome>, i: nat, flags: Flags)
    requires i < |os|
    ensures LineStatus(os[i], flags) != Success ==> RunLines(os[i..], flags) == (ServiceErr, [])
    ensures LineStatus(os[i], flags) == Success ==>
              && RunLines(os[i..], flags).0 == RunLines(os[i + 1..], flags).0
              && RunLines(os[i..], flags).1 == Added(os[i]) + RunLines(os[i + 1..], flags).1
  {
    assert os[i..][1..] == os[i + 1..];
  }

  /** The text `rest` of the list starts with its i-th field; the next one, if any, starts after its comma. */
  lemma NextField(rest: string, fields: seq<string>, i: nat)
    requires i < |fields| && Split(rest, ',') == fields[i..]
    ensures CutAt(rest, ',') == fields[i]
    ensures IndexOf(rest, ',').Some? ==> Split(rest[IndexOf(rest, ',').value + 1..], ',') == fields[i + 1..]
    ensures IndexOf(rest, ',').None? ==> i + 1 == |fields|
  {
    SplitStep(rest, ',');
    assert fields[i..][1..] == fields[i + 1..];
  }

  /** The resolution of the first `i + 1` names extends that of the first `i`. */
  lemma ResolveSnoc(names: seq<string>, i: nat, users: map<string, Passwd>)
    requires i < |names|
    ensures Resolve(names[..i + 1], users)
            == Resolve(names[..i], users)
               + (if names[i] in users then [users[names[i]].uid] else [])
  {
    assert names[..i + 1] == names[..i] + [names[i]];
    ResolveConcat(names[..i], [names[i]], users);
  }

  /** The outcomes of the lines, one by one. */
  lemma LineOutcomes(lines: seq<string>, home: string, user: string,
                     users: map<string, Passwd>, flags: Flags) returns (os: seq<LineOutcome>)
    ensures |os| == |lines|
    ensures forall k :: 0 <= k < |lines| ==> os[k] == ParseLine(lines[k], home, user, users, flags)
  {
    os := Outcomes(lines, home, user, users, flags);
  }

  /** Outcomes taken line by line are those of Outcomes. */
  lemma OutcomesAre(lines: seq<string>, os: seq<LineOutcome>, home: string, user: string,
                    users: map<string, Passwd>, flags: Flags)
    requires |os| == |lines|
    requires forall k :: 0 <= k < |lines| ==> os[k] == ParseLine(lines[k], home, user, users, flags)
    ensures os == Outcomes(lines, home, user, users, flags)
  {
  }

  /** One pass of the loop of parse_config_file keeps its invariant, or ends it as RunLines does. */
  lemma LoopStep(os: seq<LineOutcome>, i: nat, flags: Flags, rc: Status,
                 base: seq<PolyDir>, before: seq<PolyDir>, after: seq<PolyDir>)
    requires i < |os|
    requires rc == LineStatus(os[i], flags) && after == before + Added(os[i])
    requires before == base + AllAdded(os[..i])
    requires RunLines(os, flags).0 == RunLines(os[i..], flags).0
    requires RunLines(os, flags).1 == AllAdded(os[..i]) + RunLines(os[i..], flags).1
    ensures rc != Success ==> RunLines(os, flags) == (ServiceErr, AllAdded(os[..i])) && after == before
    ensures rc == Success ==>
              && after == base + AllAdded(os[..i + 1])
              && RunLines(os, flags).0 == RunLines(os[i + 1..], flags).0
              && RunLines(os, flags).1 == AllAdded(os[..i + 1]) + RunLines(os[i + 1..], flags).1
  {
    RunLinesStep(os, i, flags);
    AllAddedSnoc(os, i);
    if rc != Success {
      assert AllAdded(os[..i]) + [] == AllAdded(os[..i]);
    }
  }

  /** The rules of the first `i + 1` outcomes are those of the first `i` and then those of outcome `i`. */
  lemma {:induction false} AllAddedSnoc(os: seq<LineOutcome>, i: nat)
    requires i < |os|
    ensures AllAdded(os[..i + 1]) == AllAdded(os[..i]) + Added(os[i])
    decreases i
  {
    if i > 0 {
      assert os[..i + 1][1..] == os[1..][..i];
      assert os[..i][1..] == os[1..][..i - 1];
      AllAddedSnoc(os[1..], i - 1);
    }
  }
}
