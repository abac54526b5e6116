/** The shape of stored v2 events on which the two label derivations agree, in terms of what a producer
    can check: string ids and types, fixed-width timestamps, one duration. */
module LabelContract {
  import opened Options
  import opened Lexicographic
  import opened Labels
  import opened LabelDerivation
  import opened LabelAgreement

  // ---------------------------------------------------------------- fixed-width timestamps

  /** `d` in the mask stands for a digit, any other character for itself. */
  predicate FixedWidth(mask: string, s: string)
  {
    && |s| == |mask|
    && forall i | 0 <= i < |s| :: if mask[i] == 'd' then '0' <= s[i] <= '9' else s[i] == mask[i]
  }

  function Scale(mask: string): (n: nat)
    ensures n > 0
  {
    if mask == [] then 1 else if mask[0] == 'd' then 10 * Scale(mask[1..]) else Scale(mask[1..])
  }

  /** The number the digits of `s` spell, read across the punctuation. */
  function Spelled(mask: string, s: string): (n: nat)
    requires FixedWidth(mask, s)
    ensures n < Scale(mask)
  {
    if s == [] then 0
    else
      var rest := Spelled(mask[1..], s[1..]);
      if mask[0] == 'd' then
        var digit := (s[0] - '0') as int;
        LeadingDigit(digit, 9, rest, 0, Scale(mask[1..]));
        digit * Scale(mask[1..]) + rest
      else rest
  }

  lemma LeadingDigit(d: int, d': int, r: int, r': int, scale: int)
    requires 0 <= d && 0 <= d' && 0 <= r < scale && 0 <= r' < scale
    ensures d < d' ==> d * scale + r < d' * scale + r'
    ensures d == d' ==> (d * scale + r <= d' * scale + r' <==> r <= r')
    ensures d <= d' ==> d * scale + r < (d' + 1) * scale
  {
    if d < d' {
      assert (d + 1) * scale <= d' * scale;
    }
    if d <= d' {
      assert (d + 1) * scale <= (d' + 1) * scale;
    }
  }

  /** Texts of one mask compare as the numbers they spell. */
  lemma {:induction false} TextOrderIsNumberOrder(mask: string, a: string, b: string)
    requires FixedWidth(mask, a) && FixedWidth(mask, b)
    ensures StringLeq(a, b) <==> Spelled(mask, a) <= Spelled(mask, b)
    decreases |mask|
  {
    if a != [] {
      TextOrderIsNumberOrder(mask[1..], a[1..], b[1..]);
      if mask[0] == 'd' {
        var d, d' := (a[0] - '0') as int, (b[0] - '0') as int;
        LeadingDigit(d, d', Spelled(mask[1..], a[1..]), Spelled(mask[1..], b[1..]), Scale(mask[1..]));
        LeadingDigit(d', d, Spelled(mask[1..], b[1..]), Spelled(mask[1..], a[1..]), Scale(mask[1..]));
        assert a[0] == b[0] <==> d == d';
      }
    }
  }

  lemma {:induction false} ScaleLonger(mask: string, m: char)
    ensures Scale(mask + [m]) == if m == 'd' then 10 * Scale(mask) else Scale(mask)
    decreases |mask|
  {
    if mask != [] {
      assert (mask + [m])[1..] == mask[1..] + [m];
      ScaleLonger(mask[1..], m);
    }
  }

  /** The spelled number is the decimal one: one more digit makes it ten times as large, and the digit;
      punctuation adds nothing. */
  lemma {:induction false} SpelledIsDecimal(mask: string, s: string, m: char, c: char)
    requires FixedWidth(mask, s) && if m == 'd' then c in "0123456789" else c == m
    ensures FixedWidth(mask + [m], s + [c])
    ensures Spelled(mask + [m], s + [c])
         == if m == 'd' then 10 * Spelled(mask, s) + (c as int - '0' as int) else Spelled(mask, s)
    decreases |mask|
  {
    var mm, ss := mask + [m], s + [c];
    if mask == [] {
      assert mm[1..] == [] && ss[1..] == [];
    } else {
      assert mm[1..] == mask[1..] + [m] && ss[1..] == s[1..] + [c];
      SpelledIsDecimal(mask[1..], s[1..], m, c);
      ScaleLonger(mask[1..], m);
      TenTimes(s[0] as int - '0' as int, Scale(mask[1..]));
    }
  }

  lemma TenTimes(digit: int, scale: int)
    ensures digit * (10 * scale) == 10 * (digit * scale)
  {
  }

  /** UTC timestamps written in this mask, most significant field first: a later instant is a larger
      number. Nothing is before the least instant, and the empty text is no time. */
  ghost predicate TellsTime(t: Text, mask: string)
  {
    && t.parseTime("").None?
    && (forall a | t.parseTime(a).Some? :: t.parseTime(a).value >= t.minTime)
    && forall a, b | FixedWidth(mask, a) && FixedWidth(mask, b) && t.parseTime(a).Some? && t.parseTime(b).Some? ::
      t.parseTime(a).value <= t.parseTime(b).value <==> Spelled(mask, a) <= Spelled(mask, b)
  }

  predicate IsTime(t: Text, mask: string, j: Json)
  {
    j.Str? && FixedWidth(mask, j.s) && t.parseTime(j.s).Some?
  }

  lemma TimesCompare(t: Text, mask: string, a: Json, b: Json)
    requires TellsTime(t, mask) && IsTime(t, mask, a) && IsTime(t, mask, b)
    ensures PyInstant(t, a) < PyInstant(t, b) <==> a.s != b.s && StringLeq(a.s, b.s)
    ensures PyInstant(t, a) == PyInstant(t, b) <==> a.s == b.s
  {
    TextOrderIsNumberOrder(mask, a.s, b.s);
    TextOrderIsNumberOrder(mask, b.s, a.s);
    StringOrder();
    assert StringLeq(a.s, b.s) && StringLeq(b.s, a.s) ==> a.s == b.s;
  }

  /** A time of the mask, or no text at all, which both languages take for the least. */
  predicate IsMoment(t: Text, mask: string, j: Json)
  {
    j.Str? ==> IsTime(t, mask, j)
  }

  /** One of them is no text, and the other is the least instant, written out. */
  predicate Ambiguous(t: Text, a: Json, b: Json)
  {
    a.Str? && !b.Str? && PyInstant(t, a) == t.minTime
  }

  function TextOf(j: Json): string
  {
    if j.Str? then j.s else ""
  }

  lemma MomentsCompare(t: Text, mask: string, a: Json, b: Json)
    requires TellsTime(t, mask) && IsMoment(t, mask, a) && IsMoment(t, mask, b)
    requires !Ambiguous(t, a, b) && !Ambiguous(t, b, a)
    ensures PyInstant(t, a) < PyInstant(t, b) <==> TextOf(a) != TextOf(b) && StringLeq(TextOf(a), TextOf(b))
    ensures PyInstant(t, a) == PyInstant(t, b) <==> TextOf(a) == TextOf(b)
  {
    if a.Str? && b.Str? {
      TimesCompare(t, mask, a, b);
    }
  }

  // ---------------------------------------------------------------- one duration

  function In(fields: map<Name, Json>, name: Name): set<Json>
  {
    if name in fields then {fields[name]} else {}
  }

  function MetadataOf(e: Event): map<Name, Json>
  {
    if Field(e, Metadata).Obj? then Field(e, Metadata).fields else map[]
  }

  /** The duration fields both languages read somewhere. */
  function SharedDurations(e: Event): set<Json>
  {
    In(e, ContinuousVisibleMs) + In(e, DwellMs) + In(MetadataOf(e), ContinuousVisibleMs)
  }

  /** Every duration field present holds one 64-bit integer, and the metadata's `dwell_ms`, which Rust
      never reads, is not the only one. */
  ghost predicate OneDuration(e: Event)
  {
    var durations := SharedDurations(e) + In(MetadataOf(e), DwellMs);
    && (forall v | v in durations :: AsI64(v).Some?)
    && (forall v, w | v in durations && w in durations :: v == w)
    && (SharedDurations(e) == {} ==> durations == {})
  }

  lemma SameDuration(e: Event)
    requires OneDuration(e)
    ensures PyDuration(e) == if RustDuration(e).Some? then Num(RustDuration(e).value) else Null
  {
    var metadata := MetadataOf(e);
    var durations := SharedDurations(e) + In(metadata, DwellMs);
    assert ContinuousVisibleMs in e ==> e[ContinuousVisibleMs] in durations;
    assert DwellMs in e ==> e[DwellMs] in durations;
    assert ContinuousVisibleMs in metadata ==> metadata[ContinuousVisibleMs] in durations;
    assert DwellMs in metadata ==> metadata[DwellMs] in durations && SharedDurations(e) != {};
  }

  // ---------------------------------------------------------------- the contract

  ghost predicate KeepsContract(t: Text, mask: string, e: Event)
  {
    && Field(e, EventId).Str? && Field(e, EventType).Str?
    && IsMoment(t, mask, Field(e, OccurredAt)) && IsMoment(t, mask, Field(e, IngestedAt))
    && (PyKind(t, e) == View || PyKind(t, e) == Dwell ==> OneDuration(e))
  }

  /** No event writes out the least instant where another has no time. */
  ghost predicate Unambiguous(t: Text, events: seq<Event>)
  {
    forall a, b | a in events && b in events ::
      && !Ambiguous(t, Field(a, OccurredAt), Field(b, OccurredAt))
      && !Ambiguous(t, Field(a, IngestedAt), Field(b, IngestedAt))
  }

  lemma ComparesAlike(t: Text, mask: string, events: seq<Event>, a: Event, b: Event)
    requires TellsTime(t, mask) && KeepsContract(t, mask, a) && KeepsContract(t, mask, b)
    requires Unambiguous(t, events) && a in events && b in events
    ensures PyLeq(t, a, b) <==> RustLeq(a, b)
  {
    MomentsCompare(t, mask, Field(a, OccurredAt), Field(b, OccurredAt));
    MomentsCompare(t, mask, Field(a, IngestedAt), Field(b, IngestedAt));
  }

  lemma ContractIsComparable(events: seq<Event>, t: Text, mask: string, q: int)
    requires TellsTime(t, mask) && Unambiguous(t, events) && forall e | e in events :: KeepsContract(t, mask, e)
    ensures Comparable(events, t, q)
  {
    forall e | e in events ensures ReadAlike(t, q, e) {
      if PyKind(t, e) == View || PyKind(t, e) == Dwell {
        SameDuration(e);
      }
    }
    forall a, b | a in events && b in events ensures PyLeq(t, a, b) <==> RustLeq(a, b) {
      ComparesAlike(t, mask, events, a, b);
    }
  }

  /** On events of this shape whatever the Rust derivation answers is the Python label, or both reject. */
  lemma ContractEventsAgree(
      raw: seq<Event>, defaults: Event, q: int, closed: bool, t: Text, mask: string, r: Outcome)
    requires TellsTime(t, mask) && Unambiguous(Named(t), MergeAll(defaults, raw))
    requires forall e | e in MergeAll(defaults, raw) :: KeepsContract(Named(t), mask, e)
    requires RustAnswers(raw, defaults, q, closed, KindOf, r)
    ensures r == PyLabel(raw, defaults, true, q, closed, false, Named(t))
  {
    ContractIsComparable(MergeAll(defaults, raw), Named(t), mask, q);
    var hashOrder :| MayYield(raw, defaults, hashOrder) && r == RustLabel(raw, defaults, q, closed, KindOf, hashOrder);
    PythonAndRustAgree(raw, defaults, q, closed, Named(t), hashOrder);
  }
}
