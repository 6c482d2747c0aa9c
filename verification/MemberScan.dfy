/** Scanning the members of a baggage list, for any way of reading a single value. */
module MemberScan {
  import opened Confidence
  import opened Text

  /** Malformed is the URIError of a bad percent escape. */
  datatype Reading = Absent | Found(id: string) | Malformed

  datatype Cut = NoEquals | Cut(name: string, rest: string)

  /** A member cut at its first equals sign. */
  function CutAtEquals(member: string): (c: Cut)
    ensures c.Cut? ==> |c.name| + 1 + |c.rest| == |member|
  {
    var name := Split(member, '=')[0];
    PiecesShorter(member, '=');
    if |name| >= |member| then NoEquals else Cut(name, member[|name| + 1..])
  }

  lemma CutStamped(key: string, value: string)
    requires '=' !in key
    ensures CutAtEquals(key + "=" + value) == Cut(key, value)
  {
    SplitFirst(key, value, '=');
    assert (key + "=" + value)[|key| + 1..] == value;
  }

  // ----- the first value that reads -----

  function ReadCut(sp: Space, key: string, cut: Cut, read: string -> Reading): (r: Reading) {
    if cut.NoEquals? || Trim(sp, cut.name) != key then Absent else read(cut.rest)
  }

  function ReadMember(sp: Space, key: string, member: string, read: string -> Reading): (r: Reading) {
    ReadCut(sp, key, CutAtEquals(member), read)
  }

  /** The first member that reads as anything. */
  function FirstOf(members: seq<string>, f: string -> Reading): (r: Reading) {
    if members == [] then Absent
    else if f(members[0]).Absent? then FirstOf(members[1..], f) else f(members[0])
  }

  function FirstReading(sp: Space, key: string, members: seq<string>, read: string -> Reading): (r: Reading) {
    FirstOf(members, m => ReadMember(sp, key, m, read))
  }

  /** The source's loop: skip foreign members and empty values, return the first other one. */
  method ScanMembers(sp: Space, key: string, members: seq<string>, read: string -> Reading) returns (r: Reading)
    ensures r == FirstReading(sp, key, members, read)
  {
    for i := 0 to |members|
      invariant FirstReading(sp, key, members, read) == FirstReading(sp, key, members[i..], read)
    {
      FirstReadingStep(sp, key, members, i, read);
      var cut := CutAtEquals(members[i]);
      if cut.NoEquals? {
        continue;
      }
      if Trim(sp, cut.name) != key {
        continue;
      }
      var value := read(cut.rest);
      if !value.Absent? {
        return value;
      }
    }
    return Absent;
  }

  lemma FirstReadingStep(sp: Space, key: string, members: seq<string>, i: nat, read: string -> Reading)
    requires i < |members|
    ensures FirstReading(sp, key, members[i..], read) ==
            var r := ReadMember(sp, key, members[i], read);
            if r.Absent? then FirstReading(sp, key, members[i + 1..], read) else r
  {
    assert members[i..][1..] == members[i + 1..];
  }

  lemma {:induction false} FirstOfConcat(a: seq<string>, b: seq<string>, f: string -> Reading)
    ensures FirstOf(a + b, f) == if FirstOf(a, f).Absent? then FirstOf(b, f) else FirstOf(a, f)
  {
    if a == [] {
      assert a + b == b;
    } else {
      FirstOfConcat(a[1..], b, f);
      assert (a + b)[1..] == a[1..] + b;
    }
  }

  lemma {:induction false} FirstOfAbsent(members: seq<string>, f: string -> Reading)
    ensures FirstOf(members, f).Absent? <==> forall m <- members :: f(m).Absent?
  {
    if members != [] {
      FirstOfAbsent(members[1..], f);
      assert members == [members[0]] + members[1..];
    }
  }

  /** Nothing is read exactly when no member reads. */
  lemma FirstReadingAbsent(sp: Space, key: string, members: seq<string>, read: string -> Reading)
    ensures FirstReading(sp, key, members, read).Absent? <==>
            forall m <- members :: ReadMember(sp, key, m, read).Absent?
  {
    FirstOfAbsent(members, m => ReadMember(sp, key, m, read));
  }

  lemma FirstReadingConcat(sp: Space, key: string, a: seq<string>, b: seq<string>, read: string -> Reading)
    ensures FirstReading(sp, key, a + b, read) ==
            if FirstReading(sp, key, a, read).Absent? then FirstReading(sp, key, b, read)
            else FirstReading(sp, key, a, read)
  {
    FirstOfConcat(a, b, m => ReadMember(sp, key, m, read));
  }

  lemma ReadMemberOf(sp: Space, key: string, name: string, value: string, read: string -> Reading)
    requires '=' !in name && Trim(sp, name) == key
    ensures ReadMember(sp, key, name + "=" + value, read) == read(value)
  {
    CutStamped(name, value);
  }

  lemma ReadOwnMember(sp: Space, key: string, value: string, read: string -> Reading)
    requires '=' !in key && Tight(sp, key)
    ensures ReadMember(sp, key, key + "=" + value, read) == read(value)
  {
    TrimTight(sp, key);
    ReadMemberOf(sp, key, key, value, read);
  }

  lemma FirstReadingSingle(sp: Space, key: string, member: string, read: string -> Reading)
    ensures FirstReading(sp, key, [member], read) == ReadMember(sp, key, member, read)
  {
    FirstReadingStep(sp, key, [member], 0, read);
    assert [member][0..] == [member] && [member][1..] == [];
  }

  ghost predicate Shrinks(read: string -> Reading) {
    forall text :: read(text).Found? ==> |read(text).id| <= |text|
  }

  lemma ReadMemberShrinks(sp: Space, key: string, member: string, read: string -> Reading)
    requires Shrinks(read)
    ensures ReadMember(sp, key, member, read).Found? ==> |ReadMember(sp, key, member, read).id| <= |member|
  {
  }

  lemma {:induction false} FirstReadingShrinks(sp: Space, key: string, members: seq<string>, bound: nat,
                                               read: string -> Reading)
    requires Shrinks(read) && forall m <- members :: |m| < bound
    ensures FirstReading(sp, key, members, read).Found? ==> |FirstReading(sp, key, members, read).id| < bound
  {
    if members != [] {
      assert members[0] in members;
      ReadMemberShrinks(sp, key, members[0], read);
      FirstReadingShrinks(sp, key, members[1..], bound, read);
    }
  }

  // ----- a dictionary in which the last member wins -----

  function Entries(members: seq<string>, entry: string -> Option<(string, string)>): (m: map<string, string>) {
    if members == [] then map[]
    else
      var front := Entries(members[..|members| - 1], entry);
      match entry(members[|members| - 1])
      case None => front
      case Some((k, v)) => front[k := v]
  }

  method CollectMembers(members: seq<string>, entry: string -> Option<(string, string)>)
    returns (parsed: map<string, string>)
    ensures parsed == Entries(members, entry)
  {
    parsed := map[];
    for i := 0 to |members|
      invariant parsed == Entries(members[..i], entry)
    {
      assert members[..i + 1][..i] == members[..i];
      var e := entry(members[i]);
      if e.None? {
        continue;
      }
      parsed := parsed[e.value.0 := e.value.1];
    }
    assert members[..|members|] == members;
  }

  lemma {:induction false} EntriesLastWins(key: string, a: seq<string>, b: seq<string>,
                                           entry: string -> Option<(string, string)>)
    requires key in Entries(b, entry)
    ensures key in Entries(a + b, entry) && Entries(a + b, entry)[key] == Entries(b, entry)[key]
    decreases |b|
  {
    var front := b[..|b| - 1];
    assert (a + b)[..|a + b| - 1] == a + front;
    if key in Entries(front, entry) {
      EntriesLastWins(key, a, front, entry);
    }
  }

  /** Every value in the dictionary comes from one of the members. */
  lemma {:induction false} EntriesFrom(key: string, members: seq<string>,
                                       entry: string -> Option<(string, string)>)
    requires key in Entries(members, entry)
    ensures exists m <- members :: entry(m) == Some((key, Entries(members, entry)[key]))
  {
    var n := |members| - 1;
    assert members[n] in members;
    if key in Entries(members[..n], entry) {
      EntriesFrom(key, members[..n], entry);
    }
  }

  lemma EntriesSingle(key: string, value: string, own: string, entry: string -> Option<(string, string)>)
    requires entry(own) == Some((key, value))
    ensures Entries([own], entry) == map[key := value]
  {
    assert [own][..0] == [];
  }

  /** A member whose entry is known puts its key in the dictionary; alone, with its own value. */
  lemma {:induction false} EntriesHold(key: string, value: string, own: string, rest: seq<string>,
                                       entry: string -> Option<(string, string)>)
    requires entry(own) == Some((key, value))
    ensures key in Entries([own] + rest, entry)
    ensures rest == [] ==> Entries([own] + rest, entry) == map[key := value]
    decreases |rest|
  {
    if rest == [] {
      assert [own] + rest == [own];
      EntriesSingle(key, value, own, entry);
    } else {
      var n := |rest| - 1;
      EntriesHold(key, value, own, rest[..n], entry);
      assert ([own] + rest)[..n + 1] == [own] + rest[..n];
    }
  }

  ghost predicate Shortens(entry: string -> Option<(string, string)>) {
    forall member :: entry(member).Some? ==> |entry(member).value.1| < |member|
  }

  lemma EntriesShorter(key: string, members: seq<string>, bound: nat,
                       entry: string -> Option<(string, string)>)
    requires key in Entries(members, entry)
    requires forall m <- members :: entry(m).Some? ==> |entry(m).value.1| < bound
    ensures |Entries(members, entry)[key]| < bound
  {
    EntriesFrom(key, members, entry);
  }
}
