/** The gateway's and the backend's reading of a baggage header, and when they return what was written. */
module BaggageReaders {
  import opened Confidence
  import opened Text
  import opened PercentEncoding
  import opened Baggage
  import opened MemberScan

  // ----- the gateway -----

  /** The text after the equals sign, up to the first property, trimmed and decoded. */
  function ReadValue(sp: Space, text: string): (r: Reading) {
    DecodeTrimmed(Trim(sp, Split(text, ';')[0]))
  }

  function ValueReader(sp: Space): (read: string -> Reading) {
    text => ReadValue(sp, text)
  }

  function DecodeTrimmed(value: string): (r: Reading) {
    if value == "" then Absent
    else
      match Decode(value)
      case None => Malformed
      case Some(id) => Found(id)
  }

  /** The gateway drops the properties of a member. */
  lemma PropertiesDropped(sp: Space, value: string, properties: string)
    requires ';' !in value
    ensures ReadValue(sp, value + ";" + properties) == DecodeTrimmed(Trim(sp, value))
  {
    SplitFirst(value, properties, ';');
  }

  function GatewayRead(sp: Space, key: string, raw: Option<string>): (r: Reading) {
    if raw.None? || raw.value == "" then Absent else FirstReading(sp, key, Split(raw.value, ','), ValueReader(sp))
  }

  method ParseBaggageRunId(sp: Space, key: string, raw: Option<string>) returns (r: Reading)
    ensures r == GatewayRead(sp, key, raw)
  {
    if raw.None? || raw.value == "" {
      return Absent;
    }
    r := ScanMembers(sp, key, Split(raw.value, ','), ValueReader(sp));
  }

  /** Ids the gateway reads back verbatim. */
  ghost predicate PlainId(sp: Space, id: string) {
    id != "" && Tight(sp, id) && ',' !in id && ';' !in id && '%' !in id
  }

  lemma DecodeTrimmedVerbatim(value: string)
    ensures DecodeTrimmed(value) == Found(value) <==> value != "" && '%' !in value
    ensures DecodeTrimmed(value).Found? ==> |DecodeTrimmed(value).id| <= |value|
  {
    if '%' !in value {
      DecodePlain(value);
    } else if Decode(value).Some? {
      DecodeShortens(value);
    }
    if Decode(value).Some? {
      DecodeShortens(value);
    }
  }

  /** A value is read back verbatim exactly when it is plain up to commas; otherwise it only shrinks. */
  lemma ReadValueVerbatim(sp: Space, text: string)
    ensures ReadValue(sp, text) == Found(text) <==> text != "" && Tight(sp, text) && ';' !in text && '%' !in text
    ensures ReadValue(sp, text).Found? ==> |ReadValue(sp, text).id| <= |text|
  {
    var first := Split(text, ';')[0];
    PiecesShorter(text, ';');
    assert first in Split(text, ';');
    TrimIsWithin(sp, first);
    TrimTight(sp, first);
    if ';' !in text {
      SplitFree(text, ';');
    }
    DecodeTrimmedVerbatim(Trim(sp, first));
    assert |Trim(sp, first)| == |text| ==> Trim(sp, first) == first == text by {
      if |Trim(sp, first)| == |text| {
        SplitFree(text, ';');
        FullTrim(sp, first);
      }
    }
  }

  lemma FullTrim(sp: Space, s: string)
    requires |Trim(sp, s)| == |s|
    ensures Trim(sp, s) == s
  {
  }

  lemma ReadValueShrinks(sp: Space)
    ensures Shrinks(ValueReader(sp))
  {
    forall text ensures ReadValue(sp, text).Found? ==> |ReadValue(sp, text).id| <= |text| {
      ReadValueVerbatim(sp, text);
    }
  }

  /**
   * The gateway's reading of a header the SDK merged. A surviving member that it reads as a run
   * id shadows the new one; with none, the id comes back verbatim exactly when it is plain.
   */
  lemma GatewayReadsMerged(sp: Space, key: string, existing: Option<string>, runId: string)
    requires WellFormedKey(sp, key)
    ensures
      var shadow := FirstReading(sp, key, Others(sp, key, existing), ValueReader(sp));
      var reading := GatewayRead(sp, key, Some(Merge(sp, key, existing, runId)));
      && (!shadow.Absent? ==> reading == shadow)
      && (shadow.Absent? ==> (reading == Found(runId) <==> PlainId(sp, runId)))
  {
    MergedIsVisible(sp, sp, key, existing, runId);
    MergedReading(sp, key, existing, runId, ValueReader(sp));
    OwnReading(sp, key, runId);
  }

  /** What any value reader finds in a merged header. */
  lemma MergedReading(sp: Space, key: string, existing: Option<string>, runId: string, read: string -> Reading)
    requires WellFormedKey(sp, key)
    ensures
      var ids := Split(runId, ',');
      var others := FirstReading(sp, key, Others(sp, key, existing), read);
      FirstReading(sp, key, Split(Merge(sp, key, existing, runId), ','), read) ==
      if others.Absent? then FirstReading(sp, key, [Stamp(key) + ids[0]] + ids[1..], read) else others
  {
    var ids := Split(runId, ',');
    MergeSplits(sp, key, existing, runId);
    FirstReadingConcat(sp, key, Others(sp, key, existing), [Stamp(key) + ids[0]] + ids[1..], read);
  }

  lemma OwnReading(sp: Space, key: string, runId: string)
    requires WellFormedKey(sp, key)
    ensures
      var ids := Split(runId, ',');
      FirstReading(sp, key, [Stamp(key) + ids[0]] + ids[1..], ValueReader(sp)) == Found(runId) <==> PlainId(sp, runId)
  {
    var ids := Split(runId, ',');
    PiecesShorter(runId, ',');
    OwnThenRest(sp, key, ids[0], ids[1..], ValueReader(sp));
    ReadValueVerbatim(sp, ids[0]);
    if ',' in runId {
      assert ids[0] in ids;
      ReadValueShrinks(sp);
      FirstReadingShrinks(sp, key, ids[1..], |runId|, ValueReader(sp));
    } else {
      SplitFree(runId, ',');
    }
  }

  lemma OwnThenRest(sp: Space, key: string, value: string, rest: seq<string>, read: string -> Reading)
    requires WellFormedKey(sp, key)
    ensures FirstReading(sp, key, [Stamp(key) + value] + rest, read) ==
            if read(value).Absent? then FirstReading(sp, key, rest, read) else read(value)
  {
    var members := [Stamp(key) + value] + rest;
    ReadOwnMember(sp, key, value, read);
    FirstReadingStep(sp, key, members, 0, read);
    assert members[0..] == members && members[1..] == rest;
  }

  /** The member spells the key with whitespace before its equals sign, and its value reads. */
  ghost predicate Shadows(sp: Space, key: string, member: string, read: string -> Reading) {
    exists pad, rest :: IsPadded(sp, key, member, pad, rest) && !read(rest).Absent?
  }

  ghost predicate IsPadded(sp: Space, key: string, member: string, pad: string, rest: string) {
    pad != "" && Blank(sp, pad) && member == key + pad + "=" + rest
  }

  /** Of the members a merge keeps, the gateway reads exactly the shadowing ones. */
  lemma ReadsIffShadows(sp: Space, key: string, member: string, read: string -> Reading)
    requires WellFormedKey(sp, key) && KeptMember(key, member) && Tight(sp, member)
    ensures !ReadMember(sp, key, member, read).Absent? <==> Shadows(sp, key, member, read)
  {
    if !ReadMember(sp, key, member, read).Absent? {
      var pad := PadOfRead(sp, key, member, read);
    }
    if pad, rest :| IsPadded(sp, key, member, pad, rest) && !read(rest).Absent? {
      PaddedReads(sp, key, member, pad, rest, read);
    }
  }

  lemma PaddedReads(sp: Space, key: string, member: string, pad: string, rest: string, read: string -> Reading)
    requires WellFormedKey(sp, key) && IsPadded(sp, key, member, pad, rest)
    ensures ReadMember(sp, key, member, read) == read(rest)
  {
    PaddedKeyTrims(sp, key, pad);
    ReadMemberOf(sp, key, key + pad, rest, read);
  }

  lemma PadOfRead(sp: Space, key: string, member: string, read: string -> Reading) returns (pad: string)
    requires WellFormedKey(sp, key) && KeptMember(key, member) && Tight(sp, member)
    requires !ReadMember(sp, key, member, read).Absent?
    ensures IsPadded(sp, key, member, pad, CutAtEquals(member).rest) && !read(CutAtEquals(member).rest).Absent?
  {
    var cut := CutAtEquals(member);
    CutIsPrefix(member);
    pad := PadOf(sp, key, cut.name, member);
    CutRebuilds(member);
  }

  lemma CutRebuilds(member: string)
    requires CutAtEquals(member).Cut?
    ensures member == CutAtEquals(member).name + "=" + CutAtEquals(member).rest
  {
    var cut := CutAtEquals(member);
    CutIsPrefix(member);
    assert member == member[..|cut.name|] + [member[|cut.name|]] + member[|cut.name| + 1..];
  }

  lemma PadOf(sp: Space, key: string, name: string, member: string) returns (pad: string)
    requires key != "" && Trim(sp, name) == key && Tight(sp, member) && !StartsWith(member, Stamp(key))
    requires name < member && member[|name|] == '='
    ensures pad != "" && Blank(sp, pad) && name == key + pad
  {
    assert name != "" && name[0] == member[0];
    StartOfUnique(sp, name, 0);
    StampPrefix(key, member);
    var e := EndOf(sp, name, |name|);
    assert name[0..] == name;
    assert key == name[..e];
    pad := name[e..];
  }

  lemma PaddedKeyTrims(sp: Space, key: string, pad: string)
    requires WellFormedKey(sp, key) && Blank(sp, pad)
    ensures Trim(sp, key + pad) == key && '=' !in key + pad
  {
    TrimPrefix(sp, key, pad);
    EndOfUnique(sp, pad, 0);
  }

  /**
   * The gateway's reading of a merged header, exactly: if the header had a shadowing member, the
   * first one is read, whatever run id is written; if not, the id comes back iff it is plain.
   */
  lemma GatewayReadsIff(sp: Space, key: string, existing: Option<string>, runId: string)
    requires WellFormedKey(sp, key)
    ensures
      var reading := GatewayRead(sp, key, Some(Merge(sp, key, existing, runId)));
      if exists m <- Others(sp, key, existing) :: Shadows(sp, key, m, ValueReader(sp))
      then !reading.Absent? && reading == FirstReading(sp, key, Others(sp, key, existing), ValueReader(sp))
      else reading == Found(runId) <==> PlainId(sp, runId)
  {
    OthersSettled(sp, key, existing);
    ShadowedIff(sp, key, Others(sp, key, existing), ValueReader(sp));
    GatewayReadsMerged(sp, key, existing, runId);
  }

  lemma ShadowedIff(sp: Space, key: string, members: seq<string>, read: string -> Reading)
    requires WellFormedKey(sp, key) && Settled(sp, key, members)
    ensures !FirstReading(sp, key, members, read).Absent? <==> exists m <- members :: Shadows(sp, key, m, read)
  {
    FirstReadingAbsent(sp, key, members, read);
    forall m <- members ensures !ReadMember(sp, key, m, read).Absent? <==> Shadows(sp, key, m, read) {
      ReadsIffShadows(sp, key, m, read);
    }
  }

  lemma StampPrefix(key: string, member: string)
    ensures StartsWith(member, Stamp(key)) <==>
            StartsWith(member, key) && |member| > |key| && member[|key|] == '='
  {
    if |member| > |key| {
      assert member[..|key| + 1] == member[..|key|] + [member[|key|]];
    }
  }

  lemma CutIsPrefix(member: string)
    requires CutAtEquals(member).Cut?
    ensures var name := CutAtEquals(member).name; name < member && member[|name|] == '='
  {
    var parts := Split(member, '=');
    JoinSplit(member, '=');
    PiecesShorter(member, '=');
    HeadAndTail(parts);
    if |parts| > 1 {
      JoinCons(parts[0], parts[1..], '=');
    }
  }

  /** The gateway's own writer percent-encodes, so every non-empty id comes back. */
  lemma GatewayReadsEncoded(sp: Space, key: string, runId: string)
    requires WellFormedKey(sp, key) && SparesEncoded(sp)
    ensures GatewayRead(sp, key, Some(Stamp(key) + Encode(runId))) ==
            if runId == "" then Absent else Found(runId)
  {
    EncodeIsClean(runId);
    CleanIsWhole(sp, Encode(runId));
    GatewayReadsWhole(sp, key, Encode(runId), ValueReader(sp));
    ReadEncoded(sp, runId);
  }

  /** A header that is one run-id member reads as its value. */
  lemma GatewayReadsWhole(sp: Space, key: string, value: string, read: string -> Reading)
    requires WellFormedKey(sp, key) && ',' !in value
    ensures Stamp(key) + value != ""
    ensures FirstReading(sp, key, Split(Stamp(key) + value, ','), read) == read(value)
  {
    SplitFree(Stamp(key) + value, ',');
    ReadOwnMember(sp, key, value, read);
    FirstReadingSingle(sp, key, Stamp(key) + value, read);
  }

  lemma ReadEncoded(sp: Space, runId: string)
    requires SparesEncoded(sp)
    ensures ReadValue(sp, Encode(runId)) == if runId == "" then Absent else Found(runId)
  {
    EncodeIsClean(runId);
    CleanIsWhole(sp, Encode(runId));
    EncodeRoundTrip(runId);
    DecodedOf(sp, Encode(runId), runId);
  }

  /** No character that survives percent encoding is whitespace. */
  ghost predicate SparesEncoded(sp: Space) {
    forall c: char :: Unreserved(c) || c == '%' ==> !sp(c)
  }

  lemma CleanIsWhole(sp: Space, value: string)
    requires SparesEncoded(sp)
    requires forall c <- value :: Unreserved(c) || c == '%'
    ensures Trim(sp, value) == value && Split(value, ';') == [value] && ',' !in value
  {
    CleanHasNoDelimiter(sp, value);
    SplitFree(value, ';');
    TrimTight(sp, value);
  }

  lemma CleanHasNoDelimiter(sp: Space, value: string)
    requires SparesEncoded(sp)
    requires forall c <- value :: Unreserved(c) || c == '%'
    ensures ';' !in value && ',' !in value && Tight(sp, value)
  {
    forall c | c in value ensures c != ';' && c != ',' && !sp(c) {
      assert Unreserved(c) || c == '%';
    }
    if value != "" {
      assert value[0] in value && value[|value| - 1] in value;
    }
  }

  lemma DecodedOf(sp: Space, value: string, id: string)
    requires Decode(value) == Some(id) && Trim(sp, value) == value && Split(value, ';') == [value]
    requires value == "" <==> id == ""
    ensures ReadValue(sp, value) == if id == "" then Absent else Found(id)
  {
  }

  // ----- the backend -----

  /** A member's key and value; None for a member without equals sign or without key. */
  function Entry(sp: Space, member: string): (e: Option<(string, string)>) {
    EntryOf(sp, CutAtEquals(Trim(sp, member)))
  }

  function EntryReader(sp: Space): (entry: string -> Option<(string, string)>) {
    member => Entry(sp, member)
  }

  function EntryOf(sp: Space, cut: Cut): (e: Option<(string, string)>) {
    if cut.NoEquals? || Trim(sp, cut.name) == "" then None else Some((Trim(sp, cut.name), Trim(sp, cut.rest)))
  }

  function BackendRead(sp: Space, raw: Option<string>): (m: map<string, string>) {
    if raw.None? || Trim(sp, raw.value) == "" then map[] else Entries(Split(raw.value, ','), EntryReader(sp))
  }

  /** What the cascade looks up. */
  function BackendRunId(sp: Space, key: string, raw: Option<string>): (id: Option<string>) {
    var parsed := BackendRead(sp, raw);
    if key in parsed then Some(parsed[key]) else None
  }

  method ParseBaggageHeader(sp: Space, raw: Option<string>) returns (parsed: map<string, string>)
    ensures parsed == BackendRead(sp, raw)
  {
    if raw.None? || Trim(sp, raw.value) == "" {
      return map[];
    }
    parsed := CollectMembers(Split(raw.value, ','), EntryReader(sp));
  }

  /** Every key of the dictionary is visible, and keys and values are trimmed. */
  lemma KeysAreVisible(sp: Space, raw: Option<string>, key: string)
    requires key in BackendRead(sp, raw)
    ensures key != "" && Tight(sp, key) && Tight(sp, BackendRead(sp, raw)[key])
  {
    var pieces := Split(raw.value, ',');
    EntriesFrom(key, pieces, EntryReader(sp));
    var m :| m in pieces && Entry(sp, m) == Some((key, BackendRead(sp, raw)[key]));
    var cut := CutAtEquals(Trim(sp, m));
    TrimTight(sp, cut.name);
    TrimTight(sp, cut.rest);
  }

  lemma OwnEntry(sp: Space, key: string, value: string)
    requires WellFormedKey(sp, key)
    ensures Entry(sp, Stamp(key) + value) == Some((key, Trim(sp, TrimEnd(sp, value))))
  {
    TrimStamped(sp, key, value);
    CutStamped(key, TrimEnd(sp, value));
    TrimTight(sp, key);
  }

  lemma TwiceTrimmed(sp: Space, value: string)
    ensures Trim(sp, TrimEnd(sp, value)) == value <==> Tight(sp, value)
    ensures |Trim(sp, TrimEnd(sp, value))| <= |value|
  {
    var once := TrimEnd(sp, value);
    TrimIsWithin(sp, once);
    TrimTight(sp, value);
    if |once| == |value| {
      assert once == value;
    }
    if Tight(sp, value) {
      assert once == value;
    }
  }

  lemma EntryShrinks(sp: Space, member: string)
    ensures Entry(sp, member).Some? ==> |Entry(sp, member).value.1| < |member|
  {
    TrimIsWithin(sp, member);
    var cut := CutAtEquals(Trim(sp, member));
    if cut.Cut? {
      TrimIsWithin(sp, cut.rest);
    }
  }

  /**
   * The backend's reading of a header the SDK merged: the last member wins, so nothing shadows
   * the new id, and it comes back exactly when it has no comma and no edge whitespace of the
   * reader's own language, whatever the writer trims.
   */
  lemma BackendReadsMerged(writer: Space, sp: Space, key: string, existing: Option<string>, runId: string)
    requires WellFormedKey(writer, key) && WellFormedKey(sp, key)
    ensures
      var parsed := BackendRead(sp, Some(Merge(writer, key, existing, runId)));
      && key in parsed
      && (parsed[key] == runId <==> ',' !in runId && Tight(sp, runId))
  {
    var ids := Split(runId, ',');
    OwnEntryRead(sp, key, runId);
    OwnEntry(sp, key, ids[0]);
    MergedEntries(writer, key, existing, runId, Trim(sp, TrimEnd(sp, ids[0])), EntryReader(sp));
    MergedIsVisible(writer, sp, key, existing, runId);
    BackendReadOf(sp, Merge(writer, key, existing, runId));
  }

  lemma BackendReadOf(sp: Space, header: string)
    requires Trim(sp, header) != ""
    ensures BackendRead(sp, Some(header)) == Entries(Split(header, ','), EntryReader(sp))
  {
  }

  lemma OwnEntryRead(sp: Space, key: string, runId: string)
    requires WellFormedKey(sp, key)
    ensures
      var ids := Split(runId, ',');
      var own := Entries([Stamp(key) + ids[0]] + ids[1..], EntryReader(sp));
      key in own && (own[key] == runId <==> ',' !in runId && Tight(sp, runId))
  {
    var first := Split(runId, ',')[0];
    EntryShortens(sp);
    OwnEntry(sp, key, first);
    TwiceTrimmed(sp, first);
    OwnEntries(sp, key, runId, Trim(sp, TrimEnd(sp, first)), EntryReader(sp));
    if ',' !in runId {
      SplitFree(runId, ',');
    }
  }

  /** In a merged header any entry reader finds what it finds in the new member and its tail. */
  lemma MergedEntries(sp: Space, key: string, existing: Option<string>, runId: string, value: string,
                      entry: string -> Option<(string, string)>)
    requires WellFormedKey(sp, key) && entry(Stamp(key) + Split(runId, ',')[0]) == Some((key, value))
    ensures
      var ids := Split(runId, ',');
      var own := Entries([Stamp(key) + ids[0]] + ids[1..], entry);
      var all := Entries(Split(Merge(sp, key, existing, runId), ','), entry);
      key in own && key in all && all[key] == own[key]
  {
    var ids := Split(runId, ',');
    MergeSplits(sp, key, existing, runId);
    EntriesHold(key, value, Stamp(key) + ids[0], ids[1..], entry);
    EntriesLastWins(key, Others(sp, key, existing), [Stamp(key) + ids[0]] + ids[1..], entry);
  }

  lemma OwnEntries(sp: Space, key: string, runId: string, value: string, entry: string -> Option<(string, string)>)
    requires Shortens(entry)
    requires var ids := Split(runId, ',');
             entry(Stamp(key) + ids[0]) == Some((key, value)) && |value| <= |ids[0]|
    ensures
      var ids := Split(runId, ',');
      var own := Entries([Stamp(key) + ids[0]] + ids[1..], entry);
      key in own && (own[key] == runId <==> ',' !in runId && value == runId)
  {
    var ids := Split(runId, ',');
    var own := [Stamp(key) + ids[0]] + ids[1..];
    EntriesHold(key, value, own[0], ids[1..], entry);
    PiecesShorter(runId, ',');
    if ',' in runId {
      assert ids[0] in ids;
      EntriesShorter(key, own, |runId|, entry);
    } else {
      SplitFree(runId, ',');
    }
  }

  lemma EntryShortens(sp: Space)
    ensures Shortens(EntryReader(sp))
  {
    forall member ensures Entry(sp, member).Some? ==> |Entry(sp, member).value.1| < |member| {
      EntryShrinks(sp, member);
    }
  }

  /**
   * The backend does not decode percent escapes: of a header the gateway wrote it returns the
   * encoded id, which is the id exactly when no character needed encoding.
   */
  lemma BackendReadsEncoded(sp: Space, key: string, runId: string)
    requires WellFormedKey(sp, key) && SparesEncoded(sp)
    ensures
      var parsed := BackendRead(sp, Some(Stamp(key) + Encode(runId)));
      && key in parsed && parsed[key] == Encode(runId)
      && (parsed[key] == runId <==> AllUnreserved(runId))
  {
    EncodeIsClean(runId);
    CleanIsWhole(sp, Encode(runId));
    BackendReadsWhole(sp, key, Encode(runId));
  }

  lemma BackendReadsWhole(sp: Space, key: string, value: string)
    requires WellFormedKey(sp, key) && ',' !in value && Trim(sp, value) == value
    ensures BackendRead(sp, Some(Stamp(key) + value)) == map[key := value]
  {
    SplitFree(Stamp(key) + value, ',');
    WholeEntries(sp, key, value);
    StampedIsVisible(sp, key, value);
    BackendReadOf(sp, Stamp(key) + value);
  }

  lemma WholeEntries(sp: Space, key: string, value: string)
    requires WellFormedKey(sp, key) && Trim(sp, value) == value
    ensures Entries([Stamp(key) + value], EntryReader(sp)) == map[key := value]
  {
    WholeEntry(sp, key, value);
    EntriesSingle(key, value, Stamp(key) + value, EntryReader(sp));
  }

  lemma WholeEntry(sp: Space, key: string, value: string)
    requires WellFormedKey(sp, key) && Trim(sp, value) == value
    ensures Entry(sp, Stamp(key) + value) == Some((key, value))
  {
    TrimTight(sp, value);
    TwiceTrimmed(sp, value);
    OwnEntry(sp, key, value);
  }

  lemma StampedIsVisible(sp: Space, key: string, value: string)
    requires WellFormedKey(sp, key)
    ensures Trim(sp, Stamp(key) + value) != ""
  {
    TrimStamped(sp, key, value);
  }
}
