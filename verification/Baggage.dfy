/**
 * The run id as a member of a W3C baggage header (section 3.2 of the W3C Baggage specification):
 * the SDK writer. The key comes from the shared wire contract and the whitespace from the
 * language that trims, so both are parameters.
 */
module Baggage {
  import opened Confidence
  import opened Text

  /** What the codec needs of a key: visible, unpadded, free of delimiters. */
  ghost predicate WellFormedKey(sp: Space, key: string) {
    key != "" && Tight(sp, key) && ',' !in key && '=' !in key && !sp('=')
  }

  // ----- the SDK writer -----

  function Stamp(key: string): (prefix: string) {
    key + "="
  }

  predicate KeptMember(key: string, member: string) {
    member != "" && !StartsWith(member, Stamp(key))
  }

  /** The trimmed members that survive, in order: neither empty nor a stale run id. */
  function Kept(sp: Space, key: string, pieces: seq<string>): (members: seq<string>) {
    if pieces == [] then []
    else Kept(sp, key, pieces[..|pieces| - 1]) + KeptPiece(sp, key, pieces[|pieces| - 1])
  }

  function KeptPiece(sp: Space, key: string, piece: string): (members: seq<string>) {
    if KeptMember(key, Trim(sp, piece)) then [Trim(sp, piece)] else []
  }

  function Others(sp: Space, key: string, existing: Option<string>): (members: seq<string>) {
    if existing.Some? && Trim(sp, existing.value) != "" then Kept(sp, key, Split(existing.value, ',')) else []
  }

  function Merge(sp: Space, key: string, existing: Option<string>, runId: string): (header: string) {
    Join(Others(sp, key, existing) + [Stamp(key) + runId], ',')
  }

  /** existing is None when the header is missing or not a string. */
  method WithRunIdMember(sp: Space, key: string, existing: Option<string>, runId: string) returns (header: string)
    ensures header == Merge(sp, key, existing, runId)
  {
    var members: seq<string> := [];
    if existing.Some? && Trim(sp, existing.value) != "" {
      var pieces := Split(existing.value, ',');
      for i := 0 to |pieces|
        invariant members == Kept(sp, key, pieces[..i])
      {
        var member := Trim(sp, pieces[i]);
        KeptNext(sp, key, pieces, i);
        if member != "" && !StartsWith(member, key + "=") {
          members := members + [member];
        }
      }
      assert pieces[..|pieces|] == pieces;
    }
    header := Join(members + [key + "=" + runId], ',');
  }

  lemma KeptNext(sp: Space, key: string, pieces: seq<string>, i: nat)
    requires i < |pieces|
    ensures Kept(sp, key, pieces[..i + 1]) == Kept(sp, key, pieces[..i]) + KeptPiece(sp, key, pieces[i])
  {
    assert pieces[..i + 1][..i] == pieces[..i];
  }

  /** What survives: the trimmed pieces that are neither blank nor stamped with the key. */
  lemma {:induction false} KeptMeans(sp: Space, key: string, pieces: seq<string>, m: string)
    ensures m in Kept(sp, key, pieces) <==>
            m != "" && !(key + "=" <= m) && exists p <- pieces :: Trim(sp, p) == m
  {
    if pieces != [] {
      var front, last := pieces[..|pieces| - 1], pieces[|pieces| - 1];
      KeptMeans(sp, key, front, m);
      assert forall p :: p in pieces <==> p in front || p == last;
    }
  }

  lemma {:induction false} KeptConcat(sp: Space, key: string, a: seq<string>, b: seq<string>)
    ensures Kept(sp, key, a + b) == Kept(sp, key, a) + Kept(sp, key, b)
    decreases |b|
  {
    if b == [] {
      assert a + b == a;
    } else {
      var front, last := b[..|b| - 1], b[|b| - 1];
      KeptConcat(sp, key, a, front);
      HeadAndTail(b);
      Associate(a, front, [last]);
      KeptPush(sp, key, a + front, last);
      Associate(Kept(sp, key, a), Kept(sp, key, front), KeptPiece(sp, key, last));
    }
  }

  lemma KeptPush(sp: Space, key: string, pieces: seq<string>, piece: string)
    ensures Kept(sp, key, pieces + [piece]) == Kept(sp, key, pieces) + KeptPiece(sp, key, piece)
  {
    assert (pieces + [piece])[..|pieces|] == pieces;
  }

  /** Members that a further merge keeps as they are. */
  ghost predicate Settled(sp: Space, key: string, members: seq<string>) {
    forall m <- members :: KeptMember(key, m) && Tight(sp, m) && ',' !in m
  }

  lemma {:induction false} KeptSettled(sp: Space, key: string, members: seq<string>)
    requires Settled(sp, key, members)
    ensures Kept(sp, key, members) == members
  {
    if members != [] {
      var n := |members| - 1;
      KeptSettled(sp, key, members[..n]);
      assert members[n] in members;
      TrimTight(sp, members[n]);
      HeadAndTail(members);
    }
  }

  lemma {:induction false} KeptIsSettled(sp: Space, key: string, pieces: seq<string>)
    requires Free(pieces, ',')
    ensures Settled(sp, key, Kept(sp, key, pieces))
  {
    if pieces != [] {
      var n := |pieces| - 1;
      KeptIsSettled(sp, key, pieces[..n]);
      assert pieces[n] in pieces;
      TrimTight(sp, pieces[n]);
      TrimIsWithin(sp, pieces[n]);
    }
  }

  lemma TrimIsWithin(sp: Space, s: string)
    ensures forall c <- Trim(sp, s) :: c in s
    ensures |Trim(sp, s)| <= |s|
  {
  }

  lemma OthersSettled(sp: Space, key: string, existing: Option<string>)
    ensures Settled(sp, key, Others(sp, key, existing))
  {
    if existing.Some? {
      SplitIsFree(existing.value, ',');
      KeptIsSettled(sp, key, Split(existing.value, ','));
    }
  }

  /** A run-id member keeps its prefix when trimmed. */
  lemma TrimStamped(sp: Space, key: string, value: string)
    requires WellFormedKey(sp, key)
    ensures Trim(sp, Stamp(key) + value) == Stamp(key) + TrimEnd(sp, value)
    ensures KeptPiece(sp, key, Stamp(key) + value) == []
  {
    TrimPrefix(sp, Stamp(key), value);
  }

  /** The pieces a reader of the merged header sees, for every run id. */
  lemma MergeSplits(sp: Space, key: string, existing: Option<string>, runId: string)
    requires WellFormedKey(sp, key)
    ensures
      var ids := Split(runId, ',');
      Split(Merge(sp, key, existing, runId), ',') ==
      Others(sp, key, existing) + ([Stamp(key) + ids[0]] + ids[1..])
  {
    OthersSettled(sp, key, existing);
    SplitJoinLast(Others(sp, key, existing), Stamp(key) + runId, ',');
    SplitAfter(Stamp(key), runId, ',');
  }

  /** Merging keeps the other members in order and leaves exactly one member with the stamp. */
  lemma MergeKeepsOthers(sp: Space, key: string, existing: Option<string>, runId: string)
    requires WellFormedKey(sp, key) && ',' !in runId
    ensures Split(Merge(sp, key, existing, runId), ',') == Others(sp, key, existing) + [Stamp(key) + runId]
    ensures forall m <- Others(sp, key, existing) :: !StartsWith(m, Stamp(key)) && m != "" && Tight(sp, m)
  {
    MergeSplits(sp, key, existing, runId);
    OthersSettled(sp, key, existing);
    SplitFree(runId, ',');
  }

  /** The other members of a merged header: the old ones, and whatever a comma in the run id adds. */
  lemma OthersOfMerged(sp: Space, key: string, existing: Option<string>, runId: string)
    requires WellFormedKey(sp, key)
    ensures Others(sp, key, Some(Merge(sp, key, existing, runId))) ==
            Others(sp, key, existing) + Kept(sp, key, Split(runId, ',')[1..])
  {
    var others, ids := Others(sp, key, existing), Split(runId, ',');
    MergeSplits(sp, key, existing, runId);
    MergedIsVisible(sp, sp, key, existing, runId);
    OthersOf(sp, key, Merge(sp, key, existing, runId), others + ([Stamp(key) + ids[0]] + ids[1..]));
    OthersSettled(sp, key, existing);
    KeptOfMerged(sp, key, others, ids[0], ids[1..]);
  }

  lemma OthersOf(sp: Space, key: string, header: string, pieces: seq<string>)
    requires Trim(sp, header) != "" && Split(header, ',') == pieces
    ensures Others(sp, key, Some(header)) == Kept(sp, key, pieces)
  {
  }

  lemma KeptOfMerged(sp: Space, key: string, others: seq<string>, value: string, rest: seq<string>)
    requires WellFormedKey(sp, key) && Settled(sp, key, others)
    ensures Kept(sp, key, others + ([Stamp(key) + value] + rest)) == others + Kept(sp, key, rest)
  {
    TrimStamped(sp, key, value);
    KeptAfter(sp, key, others, [Stamp(key) + value] + rest);
    KeptSkips(sp, key, Stamp(key) + value, rest);
  }

  lemma KeptAfter(sp: Space, key: string, others: seq<string>, rest: seq<string>)
    requires Settled(sp, key, others)
    ensures Kept(sp, key, others + rest) == others + Kept(sp, key, rest)
  {
    KeptConcat(sp, key, others, rest);
    KeptSettled(sp, key, others);
  }

  lemma KeptSkips(sp: Space, key: string, piece: string, rest: seq<string>)
    requires KeptPiece(sp, key, piece) == []
    ensures Kept(sp, key, [piece] + rest) == Kept(sp, key, rest)
  {
    KeptConcat(sp, key, [piece], rest);
    KeptSingle(sp, key, piece);
    assert [] + Kept(sp, key, rest) == Kept(sp, key, rest);
  }

  lemma KeptSingle(sp: Space, key: string, piece: string)
    ensures Kept(sp, key, [piece]) == KeptPiece(sp, key, piece)
  {
    KeptNext(sp, key, [piece], 0);
    assert [piece][..1] == [piece];
  }

  lemma OthersSingle(sp: Space, key: string, member: string)
    requires KeptMember(key, member) && Tight(sp, member) && ',' !in member
    ensures Others(sp, key, Some(member)) == [member]
  {
    TrimTight(sp, member);
    SplitFree(member, ',');
    KeptSingle(sp, key, member);
  }

  /** A merged header is not blank, to whichever language reads it. */
  lemma MergedIsVisible(sp: Space, reader: Space, key: string, existing: Option<string>, runId: string)
    requires WellFormedKey(reader, key)
    ensures Trim(reader, Merge(sp, key, existing, runId)) != ""
  {
    var header, own := Merge(sp, key, existing, runId), Stamp(key) + runId;
    JoinEndsWith(Others(sp, key, existing), own, ',');
    TrimEmpty(reader, header);
    assert header[|header| - |own|] == own[0] == key[0];
  }

  /**
   * A second merge replaces the first one's run id and nothing else, exactly when no piece after
   * a comma in the first run id became a member of its own; so merging is idempotent for every
   * run id without a comma.
   */
  lemma RemergeIff(sp: Space, key: string, existing: Option<string>, first: string, second: string)
    requires WellFormedKey(sp, key)
    ensures Merge(sp, key, Some(Merge(sp, key, existing, first)), second) == Merge(sp, key, existing, second)
            <==> Kept(sp, key, Split(first, ',')[1..]) == []
    ensures ',' !in first ==> Kept(sp, key, Split(first, ',')[1..]) == []
  {
    var others, extra := Others(sp, key, existing), Kept(sp, key, Split(first, ',')[1..]);
    OthersOfMerged(sp, key, existing, first);
    if extra == [] {
      assert others + extra == others;
    } else {
      JoinLonger(others, extra, Stamp(key) + second, ',');
    }
    if ',' !in first {
      SplitFree(first, ',');
    }
  }

  lemma {:induction false} JoinLonger(a: seq<string>, extra: seq<string>, last: string, c: char)
    requires extra != []
    ensures |Join(a + extra + [last], c)| > |Join(a + [last], c)|
    decreases |a| + |extra|
  {
    var long, short := a + extra + [last], a + [last];
    if a != [] {
      JoinLonger(a[1..], extra, last, c);
      assert long[1..] == a[1..] + extra + [last] && short[1..] == a[1..] + [last];
    } else {
      assert long[1..] == extra[1..] + [last] && short == [last];
      JoinEndsWith(extra[1..], last, c);
    }
  }

  lemma {:induction false} JoinEndsWith(a: seq<string>, last: string, c: char)
    ensures |Join(a + [last], c)| >= |last|
    ensures Join(a + [last], c)[|Join(a + [last], c)| - |last|..] == last
  {
    if a != [] {
      JoinEndsWith(a[1..], last, c);
      HeadAndTail(a);
      Associate([a[0]], a[1..], [last]);
      JoinCons(a[0], a[1..] + [last], c);
    }
  }
}
