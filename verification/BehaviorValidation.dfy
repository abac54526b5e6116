/** Validation of one behaviour event (handlers.rs), and what it guarantees the label derivations. */
module BehaviorValidation {
  import opened Collections
  import opened Options
  import L = Labels
  import D = LabelDerivation
  import C = LabelContract
  import F = LabelDifferences

  datatype Word =
    | Feed | Detail | ViewportExit | PageHidden | Destroy | PostDetail | UuidText(id: nat) | OtherWord(text: string)

  datatype Value = Int(n: int) | Float(x: real) | Text(w: Word) | Flag(b: bool) | NullValue | Nested

  datatype Key = ViewportRatio | Continuous | Trigger | VisitId | Target | OtherKey(id: nat)

  datatype Kind = Visible | View | Click | Dwell | OtherKind

  datatype Version = V1 | V2 | OtherVersion

  /** What PostgreSQL makes of the metadata text, `event_version` included: whether it casts to jsonb (a
      NUL escape does not), and the size of the jsonb as text. */
  datatype Column = Column(castable: bool, bytes: nat)
  {
    predicate Accepted()
    {
      castable && bytes <= MAX_METADATA_BYTES
    }
  }

  /** An event as it is deserialised. `metadata` is None when it is no object. */
  datatype Raw = Raw(
    clientId: nat, post: nat, impression: Option<nat>, session: Option<nat>, kind: Kind, version: Option<Version>,
    dwellMs: Option<int>, metadata: Option<map<Key, Value>>, metadataBytes: nat, column: Column, occurredAt: int)

  datatype Checked = Checked(
    clientId: nat, post: nat, impression: Option<nat>, session: Option<nat>, kind: Kind, version: Version,
    dwellMs: Option<int>, metadata: map<Key, Value>, column: Column, occurredAt: int, qualified: bool,
    visit: Option<nat>)

  datatype Code =
    | InvalidEvent | InvalidEventVersion | InvalidDwellMs | InvalidMetadata | MetadataTooLarge | UnknownMetadataKey
    | InconsistentDuration | UnqualifiedView | InvalidEventType | PostNotFound | ImpressionMismatch

  datatype Verdict = Invalid(code: Code) | Valid(event: Checked)

  const MAX_DWELL_MS := 1800000
  const MIN_QUALIFIED_VIEW_MS := 5000
  const MAX_METADATA_BYTES := 8192
  const DAY_MS := 86400000
  const FIVE_MINUTES_MS := 300000

  function AsI64(v: Value): Option<int>
  {
    if v.Int? && -0x8000_0000_0000_0000 <= v.n < 0x8000_0000_0000_0000 then Some(v.n) else None
  }

  function OrZero(x: Option<int>): int
  {
    if x.Some? then x.value else 0
  }

  predicate BadVisitId(metadata: map<Key, Value>)
  {
    VisitId in metadata && !(metadata[VisitId].Text? && metadata[VisitId].w.UuidText?)
  }

  function TriggerOf(metadata: map<Key, Value>): Option<Word>
  {
    if Trigger in metadata && metadata[Trigger].Text? then Some(metadata[Trigger].w) else None
  }

  predicate RatioInRange(metadata: map<Key, Value>)
  {
    && ViewportRatio in metadata
    && match metadata[ViewportRatio]
       case Float(x) => 0.5 <= x <= 1.0
       case Int(n) => n == 1
       case _ => false
  }

  /** The stored duration and the qualified signal of a well-formed event of this kind, or an error. */
  function Measure(raw: Raw, version: Version, metadata: map<Key, Value>, q: int): (r: Result)
  {
    match raw.kind
    case Visible =>
      if !(metadata.Keys <= {ViewportRatio}) then Error(UnknownMetadataKey)
      else if raw.dwellMs.Some? then Error(InvalidDwellMs)
      else if !RatioInRange(metadata) then Error(InvalidMetadata)
      else Measured(None, false)
    case View =>
      var continuous := if Continuous in metadata then OrZero(AsI64(metadata[Continuous])) else 0;
      var measured := Larger(continuous, OrZero(raw.dwellMs));
      var trigger := TriggerOf(metadata);
      if !(metadata.Keys <= {Continuous, Trigger, VisitId}) then Error(UnknownMetadataKey)
      else if BadVisitId(metadata) then Error(InvalidMetadata)
      else if trigger != Some(Feed) && trigger != Some(Detail) then Error(InvalidMetadata)
      else if !(0 <= continuous <= MAX_DWELL_MS) then Error(InvalidMetadata)
      else if version == V2 && raw.dwellMs != Some(continuous) then Error(InconsistentDuration)
      else if trigger == Some(Feed) && measured < (if version == V2 then q else MIN_QUALIFIED_VIEW_MS)
        then Error(UnqualifiedView)
      else Measured(Some(measured), measured >= q)
    case Click =>
      if !(metadata.Keys <= {Target}) then Error(UnknownMetadataKey)
      else if raw.dwellMs.Some? || Target !in metadata || metadata[Target] != Text(PostDetail)
        then Error(InvalidMetadata)
      else Measured(None, false)
    case Dwell =>
      var trigger := TriggerOf(metadata);
      if !(metadata.Keys <= {Trigger, VisitId}) then Error(UnknownMetadataKey)
      else if BadVisitId(metadata) then Error(InvalidMetadata)
      else if raw.dwellMs.None? then Error(InvalidDwellMs)
      else if trigger != Some(ViewportExit) && trigger != Some(PageHidden) && trigger != Some(Destroy)
        then Error(InvalidMetadata)
      else Measured(raw.dwellMs, raw.dwellMs.value >= q)
    case OtherKind => Error(InvalidEventType)
  }

  datatype Result = Error(code: Code) | Measured(dwellMs: Option<int>, qualified: bool)

  /** `validate_behavior_event`. */
  function Validate(raw: Raw, now: int, q: int): Verdict
  {
    var version := if raw.version.Some? then raw.version.value else V1;
    if version == OtherVersion then Invalid(InvalidEventVersion)
    else if !(0 <= OrZero(raw.dwellMs) <= MAX_DWELL_MS) then Invalid(InvalidDwellMs)
    else if raw.metadata.None? then Invalid(InvalidMetadata)
    else if raw.metadataBytes > MAX_METADATA_BYTES then Invalid(MetadataTooLarge)
    else
      var metadata := raw.metadata.value;
      var m := Measure(raw, version, metadata, q);
      if m.Error? then Invalid(m.code)
      else
        var visit := if VisitId in metadata && metadata[VisitId].Text? && metadata[VisitId].w.UuidText?
                     then Some(metadata[VisitId].w.id) else None;
        Valid(Checked(raw.clientId, raw.post, raw.impression, raw.session, raw.kind, version, m.dwellMs, metadata,
                      raw.column,
                      Smaller(Larger(raw.occurredAt, now - DAY_MS), now + FIVE_MINUTES_MS), m.qualified, visit))
  }

  // ---------------------------------------------------------------- what the labels read

  predicate IsRead(c: Checked)
  {
    c.kind == View || c.kind == Dwell
  }

  /** A value as the label derivations receive it; `spell` gives the text of a word. */
  function ToJson(v: Value, spell: Word -> string): L.Json
  {
    match v
    case Int(n) => L.Num(n)
    case Float(x) => L.Real(x)
    case Text(w) => L.Str(spell(w))
    case Flag(b) => L.Bool(b)
    case NullValue => L.Null
    case Nested => L.Arr([])
  }

  /** The stored row as the label derivations receive it. */
  function ToLabelEvent(c: Checked, id: string, spell: Word -> string): L.Event
    requires IsRead(c) && c.dwellMs.Some?
  {
    var metadata: map<L.Name, L.Json> :=
      if Continuous in c.metadata then map[L.ContinuousVisibleMs := ToJson(c.metadata[Continuous], spell)] else map[];
    map[L.EventId := L.Str(id), L.EventType := L.Str(if c.kind == View then "view" else "dwell"),
        L.DwellMs := L.Num(c.dwellMs.value), L.Metadata := L.Obj(metadata)]
  }

  /** Both derivations take a stored read for what it was. */
  lemma StoredKind(c: Checked, id: string, spell: Word -> string, t: D.Text)
    requires IsRead(c) && c.dwellMs.Some?
    ensures var e := ToLabelEvent(c, id, spell);
            && (c.kind == View <==> D.PyKind(D.Named(t), e) == L.View)
            && (c.kind == Dwell <==> D.RustKind(L.KindOf, e) == L.Dwell)
            && (c.kind == View <==> D.RustKind(L.KindOf, e) == L.View)
            && (c.kind == Dwell <==> D.PyKind(D.Named(t), e) == L.Dwell)
  {
  }

  lemma ValidRead(raw: Raw, now: int, q: int)
    requires Validate(raw, now, q).Valid? && IsRead(Validate(raw, now, q).event)
    ensures var c := Validate(raw, now, q).event;
            && c.dwellMs.Some? && 0 <= c.dwellMs.value <= MAX_DWELL_MS
            && (c.qualified <==> c.dwellMs.value >= q)
            && (c.version == V2 || c.kind == Dwell ==> raw.dwellMs == c.dwellMs)
            && (c.version == V2 && Continuous in c.metadata
                ==> OrZero(AsI64(c.metadata[Continuous])) == c.dwellMs.value)
            && (c.kind == Dwell ==> Continuous !in c.metadata)
  {
  }

  /** The qualified signal is the reading the Rust labels make of the stored row. */
  lemma SignalIsTheRustReading(raw: Raw, now: int, q: int, id: string, spell: Word -> string)
    requires Validate(raw, now, q).Valid? && IsRead(Validate(raw, now, q).event)
    ensures Validate(raw, now, q).event.dwellMs.Some?
    ensures var c := Validate(raw, now, q).event; c.qualified <==> D.RustQualified(ToLabelEvent(c, id, spell), q)
  {
    var c := Validate(raw, now, q).event;
    ValidRead(raw, now, q);
    assert D.RustDuration(ToLabelEvent(c, id, spell)) == Some(c.dwellMs.value);
  }

  /** An accepted read reaches the labels with one duration exactly when its metadata's duration is
      absent or is the integer stored beside it. */
  lemma OneDurationIff(raw: Raw, now: int, q: int, id: string, spell: Word -> string)
    requires Validate(raw, now, q).Valid? && IsRead(Validate(raw, now, q).event)
    ensures Validate(raw, now, q).event.dwellMs.Some?
    ensures var c := Validate(raw, now, q).event;
            C.OneDuration(ToLabelEvent(c, id, spell))
            <==> (Continuous in c.metadata ==> AsI64(c.metadata[Continuous]) == c.dwellMs)
  {
    var c := Validate(raw, now, q).event;
    ValidRead(raw, now, q);
    DurationsOf(c, id, spell);
  }

  lemma DurationsOf(c: Checked, id: string, spell: Word -> string)
    requires IsRead(c) && c.dwellMs.Some? && 0 <= c.dwellMs.value <= MAX_DWELL_MS
    ensures C.OneDuration(ToLabelEvent(c, id, spell))
            <==> (Continuous in c.metadata ==> AsI64(c.metadata[Continuous]) == c.dwellMs)
  {
    var e, dwell := ToLabelEvent(c, id, spell), L.Num(c.dwellMs.value);
    var metadata := C.MetadataOf(e);
    assert C.In(e, L.ContinuousVisibleMs) == {} && C.In(e, L.DwellMs) == {dwell} && C.In(metadata, L.DwellMs) == {};
    if Continuous in c.metadata {
      assert C.In(metadata, L.ContinuousVisibleMs) == {ToJson(c.metadata[Continuous], spell)};
      var other := ToJson(c.metadata[Continuous], spell);
      var durations := C.SharedDurations(e) + C.In(metadata, L.DwellMs);
      assert durations == {dwell, other} && dwell in durations && other in durations;
      assert other == dwell <==> AsI64(c.metadata[Continuous]) == c.dwellMs;
    } else {
      assert C.SharedDurations(e) == {dwell};
    }
  }

  /** For a v2 view the consistency check leaves one gap: a metadata duration that is no integer counts
      as zero, so with `dwell_ms` 0 it passes. Otherwise every accepted v2 read has one duration. */
  lemma V2ReadsHaveOneDurationIff(raw: Raw, now: int, q: int, id: string, spell: Word -> string)
    requires Validate(raw, now, q).Valid? && IsRead(Validate(raw, now, q).event)
            && Validate(raw, now, q).event.version == V2
    ensures Validate(raw, now, q).event.dwellMs.Some?
    ensures var c := Validate(raw, now, q).event;
            C.OneDuration(ToLabelEvent(c, id, spell))
            <==> (Continuous in c.metadata ==> AsI64(c.metadata[Continuous]).Some?)
  {
    ValidRead(raw, now, q);
    OneDurationIff(raw, now, q, id, spell);
  }

  /** What Python reads as the duration of an accepted read. */
  function PythonDuration(c: Checked, spell: Word -> string): L.Json
    requires IsRead(c) && c.dwellMs.Some?
  {
    if Continuous in c.metadata && c.metadata[Continuous] != NullValue then ToJson(c.metadata[Continuous], spell)
    else L.Num(c.dwellMs.value)
  }

  lemma PythonDurationIs(c: Checked, id: string, spell: Word -> string)
    requires IsRead(c) && c.dwellMs.Some?
    ensures D.PyDuration(ToLabelEvent(c, id, spell)) == PythonDuration(c, spell) != L.Null
  {
  }

  /** Python, which reads the metadata's own duration first, agrees with the qualified signal exactly
      when that duration is unreadable and the signal unset, or on the same side of the threshold. */
  lemma SignalMeetsPythonIff(raw: Raw, now: int, q: int, id: string, spell: Word -> string, t: D.Text)
    requires Validate(raw, now, q).Valid? && IsRead(Validate(raw, now, q).event)
    ensures Validate(raw, now, q).event.dwellMs.Some?
    ensures var c := Validate(raw, now, q).event;
            (c.qualified <==> D.PyQualified(t, ToLabelEvent(c, id, spell), q))
            <==> var ms := D.PyInt(t, PythonDuration(c, spell));
                 if ms.None? then c.dwellMs.value < q else (ms.value >= q <==> c.dwellMs.value >= q)
  {
    ValidRead(raw, now, q);
    PythonDurationIs(Validate(raw, now, q).event, id, spell);
  }

  /** Python rejects the event's whole log exactly when that duration is no integer to it. */
  lemma PythonRaisesIff(c: Checked, id: string, spell: Word -> string, t: D.Text)
    requires IsRead(c) && c.dwellMs.Some?
    ensures D.PyRaises(D.Named(t), ToLabelEvent(c, id, spell)) <==> D.PyInt(t, PythonDuration(c, spell)).None?
  {
    PythonDurationIs(c, id, spell);
    ReadNames();
    var e := ToLabelEvent(c, id, spell);
    assert D.PyKind(D.Named(t), e) == L.KindOf(e[L.EventType].s);
  }

  lemma ReadNames()
    ensures L.KindOf("view") == L.View && L.KindOf("dwell") == L.Dwell
  {
  }

  /** The size of `bytes` bytes of compact JSON with `keys` keys as PostgreSQL writes them out after
      `"event_version":"v1"` was added: one more pair, a blank after each colon and each comma. */
  function StoredBytes(keys: nat, bytes: nat): nat
  {
    bytes + 21 + (keys + 1) + keys
  }

  /** A view of the detail page; its duration takes `bytes` bytes of JSON, 45 with everything else. */
  function DetailView(
      clientId: nat, post: nat, version: Version, continuous: Value, bytes: nat, castable: bool, now: int): Raw
  {
    Raw(clientId, post, None, None, View, Some(version), Some(0),
        Some(map[Trigger := Text(Detail), Continuous := continuous]), 45 + bytes,
        Column(castable, StoredBytes(2, 45 + bytes)), now)
  }

  lemma NestedView(now: int, q: int, id: string, spell: Word -> string, t: D.Text)
    requires q > 0
    ensures var v := Validate(DetailView(0, 0, V2, Nested, 2, true, now), now, q);
            && v.Valid? && IsRead(v.event) && v.event.dwellMs.Some?
            && D.PyRaises(D.Named(t), ToLabelEvent(v.event, id, spell))
  {
    var c := Validate(DetailView(0, 0, V2, Nested, 2, true, now), now, q).event;
    PythonRaisesIff(c, id, spell, t);
  }

  /** The gap is reachable from the detail page, and the two labels of the stored event differ: Python
      rejects it and Rust labels it. */
  lemma NonIntegerDurationDivides(now: int, q: int, id: string, spell: Word -> string, t: D.Text, closed: bool)
    returns (e: L.Event)
    requires q > 0
    ensures var v := Validate(DetailView(0, 0, V2, Nested, 2, true, now), now, q);
            v.Valid? && IsRead(v.event) && v.event.dwellMs.Some? && e == ToLabelEvent(v.event, id, spell)
    ensures D.PyLabel([e], map[], true, q, closed, false, D.Named(t)) == L.Rejected
    ensures forall r | D.RustAnswers([e], map[], q, closed, L.KindOf, r) :: r.Labelled?
  {
    var c := Validate(DetailView(0, 0, V2, Nested, 2, true, now), now, q).event;
    NestedView(now, q, id, spell, t);
    e := ToLabelEvent(c, id, spell);
    var raw := [e];
    forall hashOrder | D.MayYield(raw, map[], hashOrder)
      ensures D.RustLabel(raw, map[], q, closed, L.KindOf, hashOrder).Labelled?
      ensures D.PyLabel(raw, map[], true, q, closed, false, D.Named(t)) == L.Rejected
    {
      F.UnreadableDisagrees(D.Named(t), q, closed, e, raw, hashOrder);
    }
    var order := F.SomeOrder(raw);
  }
}
