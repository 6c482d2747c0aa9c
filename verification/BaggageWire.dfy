/** The deployed wire: a TypeScript SDK and gateway, a Python backend, one key. */
module BaggageWire {
  import opened Confidence
  import opened Text
  import opened PercentEncoding
  import opened Baggage
  import opened MemberScan
  import opened BaggageReaders

  const RUN_ID_KEY: string := "valuemaxx.run_id"

  lemma SpacesSpareEncoded()
    ensures SparesEncoded(JsSpace) && SparesEncoded(PythonSpace)
  {
  }

  lemma RunIdKeyIsWellFormed()
    ensures WellFormedKey(JsSpace, RUN_ID_KEY) && WellFormedKey(PythonSpace, RUN_ID_KEY)
  {
    assert RUN_ID_KEY[0] == 'v' && RUN_ID_KEY[|RUN_ID_KEY| - 1] == 'd';
  }

  /** Exactly where the two languages' whitespace differs. */
  lemma SpacesDifferIff(c: char)
    ensures JsSpace(c) != PythonSpace(c) <==>
            c == '\U{FEFF}' || '\U{1C}' <= c <= '\U{1F}' || c == '\U{85}'
  {
  }

  /**
   * Without delimiters or escapes only the edges matter: a non-empty id comes back to each reader
   * exactly when that reader's own language keeps its first and last character.
   */
  lemma EdgeCharacters(key: string, id: string)
    requires WellFormedKey(JsSpace, key) && WellFormedKey(PythonSpace, key)
    requires id != "" && ',' !in id && ';' !in id && '%' !in id
    ensures
      var header := Some(Merge(JsSpace, key, None, id));
      && (GatewayRead(JsSpace, key, header) == Found(id) <==> !JsSpace(id[0]) && !JsSpace(id[|id| - 1]))
      && (BackendRunId(PythonSpace, key, header) == Some(id) <==> !PythonSpace(id[0]) && !PythonSpace(id[|id| - 1]))
  {
    GatewayReadsMerged(JsSpace, key, None, id);
    BackendReadsMerged(JsSpace, PythonSpace, key, None, id);
  }

  /** Both readers at the deployed key, over every header and every id. */
  lemma DeployedReaders(existing: Option<string>, runId: string)
    ensures
      var header := Some(Merge(JsSpace, RUN_ID_KEY, existing, runId));
      && ((forall m <- Others(JsSpace, RUN_ID_KEY, existing) :: !Shadows(JsSpace, RUN_ID_KEY, m, ValueReader(JsSpace))) ==>
            (GatewayRead(JsSpace, RUN_ID_KEY, header) == Found(runId) <==> PlainId(JsSpace, runId)))
      && (BackendRunId(PythonSpace, RUN_ID_KEY, header) == Some(runId) <==> ',' !in runId && Tight(PythonSpace, runId))
  {
    RunIdKeyIsWellFormed();
    GatewayReadsIff(JsSpace, RUN_ID_KEY, existing, runId);
    BackendReadsMerged(JsSpace, PythonSpace, RUN_ID_KEY, existing, runId);
  }

  /** The gateway's own header at the deployed key: its reader decodes every id, the backend's none. */
  lemma DeployedEncoding(runId: string)
    ensures
      var header := Some(Stamp(RUN_ID_KEY) + Encode(runId));
      && GatewayRead(JsSpace, RUN_ID_KEY, header) == (if runId == "" then Absent else Found(runId))
      && BackendRunId(PythonSpace, RUN_ID_KEY, header) == Some(Encode(runId))
      && (Encode(runId) == runId <==> AllUnreserved(runId))
  {
    RunIdKeyIsWellFormed();
    SpacesSpareEncoded();
    GatewayReadsEncoded(JsSpace, RUN_ID_KEY, runId);
    BackendReadsEncoded(PythonSpace, RUN_ID_KEY, runId);
    EncodeIsClean(runId);
  }

  /** Whatever id is written, a member with a space before its equals sign is what the gateway reads. */
  lemma ShadowWins(sp: Space, key: string, other: string, runId: string)
    requires WellFormedKey(sp, key) && sp(' ') && PlainId(sp, other)
    ensures GatewayRead(sp, key, Some(Merge(sp, key, Some(key + " =" + other), runId))) == Found(other)
  {
    ShadowSurvives(sp, key, other);
    ShadowReads(sp, key, other);
    FirstReadingSingle(sp, key, key + " =" + other, ValueReader(sp));
    GatewayReadsMerged(sp, key, Some(key + " =" + other), runId);
  }

  lemma ShadowReads(sp: Space, key: string, other: string)
    requires WellFormedKey(sp, key) && sp(' ') && PlainId(sp, other)
    ensures ReadMember(sp, key, key + " =" + other, ValueReader(sp)) == Found(other)
  {
    ReadValueVerbatim(sp, other);
    ReadPadded(sp, key, other, ValueReader(sp));
  }

  lemma ReadPadded(sp: Space, key: string, value: string, read: string -> Reading)
    requires WellFormedKey(sp, key) && sp(' ')
    ensures ReadMember(sp, key, key + " =" + value, read) == read(value)
  {
    PaddedKeyTrims(sp, key, " ");
    ReadMemberOf(sp, key, key + " ", value, read);
    assert (key + " ") + "=" + value == key + " =" + value;
  }

  lemma ShadowSurvives(sp: Space, key: string, other: string)
    requires WellFormedKey(sp, key) && sp(' ') && PlainId(sp, other)
    ensures Others(sp, key, Some(key + " =" + other)) == [key + " =" + other]
  {
    ShadowShape(sp, key, other);
    OthersSingle(sp, key, key + " =" + other);
  }

  lemma ShadowShape(sp: Space, key: string, other: string)
    requires WellFormedKey(sp, key) && PlainId(sp, other)
    ensures KeptMember(key, key + " =" + other) && Tight(sp, key + " =" + other) && ',' !in key + " =" + other
  {
    var existing := key + " =" + other;
    assert existing[0] == key[0] && existing[|existing| - 1] == other[|other| - 1];
    StampPrefix(key, existing);
    assert existing[|key|] == ' ';
  }
}
