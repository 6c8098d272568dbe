/** The text that is hashed and signed for a ledger commit, and what it pins down. */
module Preimage {
  import opened Common
  import opened JsonText
  import opened CanonicalJson

  /** The authoritative part of a commit; ids, enum names and proofs are texts. */
  datatype Authoritative = Authoritative(
    tenantId: Text,
    caseId: Option<Text>,
    eventType: Text,
    ts: nat,
    actorKind: Text,
    actorUserId: Option<Text>,
    authorityProof: Text,
    intentContext: Json,          // null when absent
    supersedesCommitId: Option<Text>,
    payload: Json
  )

  /** BigInt.toString of a sequence number. */
  function Decimal(n: nat): Text {
    if n < 10 then [0x30 + n] else Decimal(n / 10) + [0x30 + n % 10]
  }

  function DecimalValue(t: Text): nat {
    if t == [] then 0
    else
      var last := t[|t| - 1];
      10 * DecimalValue(t[..|t| - 1]) + if last >= 0x30 then last - 0x30 else 0
  }

  lemma {:induction false} DecimalRoundTrip(n: nat)
    ensures DecimalValue(Decimal(n)) == n
  {
    if n < 10 {
      assert Decimal(n)[..0] == [];
    } else {
      DecimalRoundTrip(n / 10);
      assert Decimal(n)[..|Decimal(n)| - 1] == Decimal(n / 10);
    }
  }

  function Nullable(o: Option<Text>): Json {
    if o.Some? then JStr(o.value) else JNull
  }

  const FIELDS: seq<Text> := [
    Ascii("tenantId"), Ascii("caseId"), Ascii("eventType"), Ascii("ts"), Ascii("actorKind"),
    Ascii("actorUserId"), Ascii("authorityProof"), Ascii("intentContext"), Ascii("supersedesCommitId"), Ascii("payload")
  ]

  function Values(a: Authoritative): (r: seq<Json>)
    ensures |r| == 10
  {
    [JStr(a.tenantId), Nullable(a.caseId), JStr(a.eventType), JStr(Decimal(a.ts)), JStr(a.actorKind),
     Nullable(a.actorUserId), JStr(a.authorityProof), a.intentContext, Nullable(a.supersedesCommitId), a.payload]
  }

  /** The object literal handed to the hash. */
  function Envelope(a: Authoritative): Json {
    JObj(seq(10, i requires 0 <= i < 10 => Member(FIELDS[i], Values(a)[i])))
  }

  lemma {:induction false} FieldsAreDistinct()
    ensures |FIELDS| == 10 && Distinct(FIELDS)
  {
    assert FIELDS[2][0] == 0x65 && FIELDS[4][0] == 0x61;
    forall i, j | 0 <= i < j < 10 ensures FIELDS[i] != FIELDS[j] {
      assert (i == 2 && j == 4) || |FIELDS[i]| != |FIELDS[j]|;
    }
  }

  predicate ValidRecord(a: Authoritative) {
    Valid(a.intentContext) && Valid(a.payload)
  }

  lemma {:induction false} EnvelopeIsValid(a: Authoritative)
    requires ValidRecord(a)
    ensures Valid(Envelope(a)) && Keys(Envelope(a).members) == FIELDS
  {
    FieldsAreDistinct();
    var ms := Envelope(a).members;
    assert Keys(ms) == FIELDS;
    forall i | 0 <= i < |ms| ensures Valid(ms[i].value) {
      ValuesAreValid(a, i);
      assert ms[i].value == Values(a)[i];
    }
  }

  lemma {:induction false} ValuesAreValid(a: Authoritative, i: nat)
    requires ValidRecord(a) && i < 10
    ensures Valid(Values(a)[i])
  {
    assert Values(a)[i] == a.intentContext || Values(a)[i] == a.payload || Values(a)[i].JStr? || Values(a)[i].JNull?;
  }

  function PreimageOf(a: Authoritative): Text
    requires ValidRecord(a)
  {
    EnvelopeIsValid(a);
    Canonicalize(Envelope(a))
  }

  /** Envelopes have the same field names in the same order, so they are the same value field by field. */
  lemma {:induction false} SameEnvelope(a: Authoritative, b: Authoritative)
    requires ValidRecord(a) && ValidRecord(b)
    ensures Same(Envelope(a), Envelope(b)) <==> forall i :: 0 <= i < 10 ==> Same(Values(a)[i], Values(b)[i])
  {
    EnvelopeIsValid(b);
    var ms, ns := Envelope(a).members, Envelope(b).members;
    assert Envelope(a) == JObj(ms) && Envelope(b) == JObj(ns);
    assert forall i :: 0 <= i < 10 ==>
      ms[i] == Member(FIELDS[i], Values(a)[i]) && ns[i] == Member(FIELDS[i], Values(b)[i]);
    hide FIELDS, Values, Canonicalize, Valid, Same, Envelope;
    if Same(Envelope(a), Envelope(b)) {
      forall i | 0 <= i < 10 ensures Same(Values(a)[i], Values(b)[i]) {
        var j := SameMember(ms, ns, i);
        DistinctFields(ns, i, j);
      }
    }
    if forall i :: 0 <= i < 10 ==> Same(Values(a)[i], Values(b)[i]) {
      SameObjects(ms, ns);
    }
  }

  lemma {:induction false} SameMember(ms: seq<Member>, ns: seq<Member>, i: nat) returns (j: nat)
    requires Same(JObj(ms), JObj(ns)) && i < |ms|
    ensures j < |ns| && ms[i].key == ns[j].key && Same(ms[i].value, ns[j].value)
  {
    assert HasSame(JObj(ms).members[i], ns);
    j :| j < |ns| && ms[i].key == ns[j].key && Same(ms[i].value, ns[j].value);
  }

  lemma {:induction false} SameObjects(ms: seq<Member>, ns: seq<Member>)
    requires |ms| == |ns| && forall i :: 0 <= i < |ms| ==> ms[i].key == ns[i].key && Same(ms[i].value, ns[i].value)
    ensures Same(JObj(ms), JObj(ns))
  {
    forall i | 0 <= i < |ms| ensures HasSame(ms[i], ns) {
      assert ms[i].key == ns[i].key && Same(ms[i].value, ns[i].value);
    }
  }

  lemma {:induction false} DistinctFields(ms: seq<Member>, i: nat, j: nat)
    requires Keys(ms) == FIELDS && i < |ms| && j < |ms| && ms[j].key == FIELDS[i]
    ensures i == j
  {
    FieldsAreDistinct();
    assert Keys(ms)[i] == FIELDS[i];
    KeysAreDistinct(ms, i, j);
  }

  lemma {:induction false} SameScalars(s: Text, t: Text, o: Option<Text>, p: Option<Text>)
    ensures Same(JStr(s), JStr(t)) <==> s == t
    ensures Same(Nullable(o), Nullable(p)) <==> o == p
  {
  }

  lemma {:induction false} SameValues(a: Authoritative, b: Authoritative)
    ensures (forall i :: 0 <= i < 10 ==> Same(Values(a)[i], Values(b)[i]))
            <==> b == a.(intentContext := b.intentContext, payload := b.payload)
                 && Same(a.intentContext, b.intentContext) && Same(a.payload, b.payload)
  {
    SameScalars(a.tenantId, b.tenantId, a.caseId, b.caseId);
    SameScalars(a.eventType, b.eventType, a.actorUserId, b.actorUserId);
    SameScalars(a.actorKind, b.actorKind, a.supersedesCommitId, b.supersedesCommitId);
    SameScalars(a.authorityProof, b.authorityProof, None, None);
    SameScalars(Decimal(a.ts), Decimal(b.ts), None, None);
    DecimalRoundTrip(a.ts);
    DecimalRoundTrip(b.ts);
    var u, v := Values(a), Values(b);
    hide Same, Decimal, DecimalValue, Nullable;
    if forall i :: 0 <= i < 10 ==> Same(u[i], v[i]) {
      assert Same(u[0], v[0]) && Same(u[1], v[1]) && Same(u[2], v[2]) && Same(u[3], v[3]) && Same(u[4], v[4]);
      assert Same(u[5], v[5]) && Same(u[6], v[6]) && Same(u[7], v[7]) && Same(u[8], v[8]) && Same(u[9], v[9]);
    }
  }

  /** Two commits share a pre-image exactly when every field agrees, the JSON fields up to property order
      and non-finite numbers. */
  lemma {:induction false} PreimageDeterminesCommit(a: Authoritative, b: Authoritative)
    requires ValidRecord(a) && ValidRecord(b)
    ensures PreimageOf(a) == PreimageOf(b) <==>
            b == a.(intentContext := b.intentContext, payload := b.payload)
            && Same(a.intentContext, b.intentContext) && Same(a.payload, b.payload)
  {
    hide Same, Canonicalize, Values, FIELDS, Envelope, Valid;
    EnvelopeIsValid(a);
    EnvelopeIsValid(b);
    CanonicalizeIsInjective(Envelope(a), Envelope(b));
    SameEnvelope(a, b);
    SameValues(a, b);
  }

  /** Sequence numbers are never reused, so no two commits of one ledger share a pre-image. */
  lemma {:induction false} DifferentTsDifferentPreimage(a: Authoritative, b: Authoritative)
    requires ValidRecord(a) && ValidRecord(b) && a.ts != b.ts
    ensures PreimageOf(a) != PreimageOf(b)
  {
    PreimageDeterminesCommit(a, b);
  }

  // ---- The hashed text ----

  const NAMES: seq<string> := [
    "actorKind", "actorUserId", "authorityProof", "caseId", "eventType", "intentContext", "payload",
    "supersedesCommitId", "tenantId", "ts"
  ]

  function SortedFields(): (r: seq<Text>)
    ensures |r| == 10
  {
    seq(10, i requires 0 <= i < 10 => Ascii(NAMES[i]))
  }

  /** The values in the order of the sorted fields. */
  function SortedValues(a: Authoritative): (r: seq<Json>)
    ensures |r| == 10
  {
    [JStr(a.actorKind), Nullable(a.actorUserId), JStr(a.authorityProof), Nullable(a.caseId), JStr(a.eventType),
     a.intentContext, a.payload, Nullable(a.supersedesCommitId), JStr(a.tenantId), JStr(Decimal(a.ts))]
  }

  lemma {:induction false} NamesAscend(i: nat, j: nat)
    requires i < j < 10
    ensures ComesFirst(SortedFields()[i], SortedFields()[j])
  {
    var a, b := SortedFields()[i], SortedFields()[j];
    var n := if NAMES[i][0] != NAMES[j][0] then 0 else if i == 0 && j == 1 then 5 else 1;
    assert a[..n] == b[..n];
    assert n < |a| && n < |b| && a[n] < b[n];
  }

  /** Field `i` of the sorted list, as a position in the literal. */
  function Position(i: nat): nat
    requires i < 10
  {
    [4, 5, 6, 1, 2, 7, 9, 8, 0, 3][i]
  }

  lemma {:induction false} SortedIsShuffled(a: Authoritative, i: nat)
    requires i < 10
    ensures SortedFields()[i] == FIELDS[Position(i)] && SortedValues(a)[i] == Values(a)[Position(i)]
    ensures Position(i) < 10
  {
  }

  lemma {:induction false} EveryFieldIsSorted(k: Text)
    ensures k in FIELDS <==> k in SortedFields()
  {
    forall i: nat | i < 10 ensures SortedFields()[i] in FIELDS && FIELDS[i] in SortedFields() {
      var back := [8, 3, 4, 9, 0, 1, 2, 5, 7, 6][i];
      assert FIELDS[i] == SortedFields()[back];
      assert SortedFields()[i] == FIELDS[Position(i)];
    }
    FieldsAreDistinct();
  }

  lemma {:induction false} FieldValue(a: Authoritative, i: nat)
    requires ValidRecord(a) && i < 10
    ensures Valid(Envelope(a)) && SortedFields()[i] in Keys(Envelope(a).members)
    ensures ValueAt(Envelope(a), SortedFields()[i]) == SortedValues(a)[i]
  {
    EnvelopeIsValid(a);
    EveryFieldIsSorted(SortedFields()[i]);
    SortedIsShuffled(a, i);
    var ms, k := Envelope(a).members, SortedFields()[i];
    assert ms[Position(i)] == Member(FIELDS[Position(i)], Values(a)[Position(i)]);
    hide FIELDS, Values, SortedFields, SortedValues, Position, Valid, Envelope;
    KeysAreDistinct(ms, IndexOf(ms, k), Position(i));
  }

  /** `"name":value` for each field in ascending order. */
  function PrintedFields(a: Authoritative): (r: seq<Text>)
    requires ValidRecord(a)
    ensures |r| == 10
  {
    seq(10, i requires 0 <= i < 10 =>
      ValuesAreValidSorted(a, i);
      Quote(SortedFields()[i]) + Ascii(":") + Canonicalize(SortedValues(a)[i]))
  }

  lemma {:induction false} ValuesAreValidSorted(a: Authoritative, i: nat)
    requires ValidRecord(a) && i < 10
    ensures Valid(SortedValues(a)[i])
  {
    SortedIsShuffled(a, i);
    ValuesAreValid(a, Position(i));
    hide Values, SortedValues, Position;
  }

  lemma {:induction false} EnvelopeMembers(a: Authoritative)
    requires ValidRecord(a)
    ensures Valid(Envelope(a)) && forall k :: k in SortedFields() <==> k in Keys(Envelope(a).members)
    ensures PrintedMembers(Envelope(a), SortedFields()) == PrintedFields(a)
  {
    EnvelopeIsValid(a);
    var v, keys := Envelope(a), SortedFields();
    hide FIELDS, Values, SortedFields, SortedValues, ValueAt, Canonicalize, Quote, Valid, Envelope;
    forall k ensures k in keys <==> k in Keys(v.members) { EveryFieldIsSorted(k); }
    forall i | 0 <= i < 10 ensures PrintedMembers(v, keys)[i] == PrintedFields(a)[i] {
      FieldValue(a, i);
      ValuesAreValidSorted(a, i);
    }
  }

  /** The hashed text is one object with these ten fields, in ascending order of their names. */
  lemma {:induction false} HashedText(a: Authoritative)
    requires ValidRecord(a)
    ensures PreimageOf(a) == Ascii("{") + Join(PrintedFields(a)) + Ascii("}")
  {
    EnvelopeMembers(a);
    var keys := SortedFields();
    assert PreimageOf(a) == Canonicalize(Envelope(a));
    hide *;
    forall i, j | 0 <= i < j < |keys| ensures ComesFirst(keys[i], keys[j]) { NamesAscend(i, j); }
    PrintedObject(Envelope(a), keys);
  }

  lemma {:induction false} PlainQuote(s: string)
    requires forall i :: 0 <= i < |s| ==> 0x23 <= s[i] as int < 0x5C || 0x5C < s[i] as int < 0xD800
    ensures Quote(Ascii(s)) == Ascii("\"") + Ascii(s) + Ascii("\"")
  {
    QuotedUnits(Ascii(s));
    PlainEscaped(s, 0);
    assert Ascii(s)[0..] == Ascii(s);
    hide Quote, Escaped;
  }

  lemma {:induction false} PlainUnit(s: Text, i: nat)
    requires i < |s| && (0x23 <= s[i] < 0x5C || 0x5C < s[i] < 0xD800)
    ensures EscapedUnit(s, i) == [s[i]]
  {
    hide Ascii;
  }

  lemma {:induction false} PlainEscaped(s: string, i: nat)
    requires forall i :: 0 <= i < |s| ==> 0x23 <= s[i] as int < 0x5C || 0x5C < s[i] as int < 0xD800
    requires i <= |s|
    ensures Escaped(Ascii(s), i) == Ascii(s)[i..]
    decreases |s| - i
  {
    var t := Ascii(s);
    if i < |s| {
      assert t[i] == s[i] as int;
      hide Ascii, EscapedUnit;
      PlainEscaped(s, i + 1);
      PlainUnit(t, i);
      assert t[i..] == [t[i]] + t[i + 1..];
    }
  }

  /** Field by field, with every name, separator and literal as it is hashed. */
  lemma {:induction false} HashedFields(a: Authoritative)
    requires ValidRecord(a)
    ensures
      var f := PrintedFields(a);
      && f[0] == Ascii("\"actorKind\":") + Quote(a.actorKind)
      && f[1] == Ascii("\"actorUserId\":") + PrintedOption(a.actorUserId)
      && f[2] == Ascii("\"authorityProof\":") + Quote(a.authorityProof)
      && f[3] == Ascii("\"caseId\":") + PrintedOption(a.caseId)
      && f[4] == Ascii("\"eventType\":") + Quote(a.eventType)
      && f[5] == Ascii("\"intentContext\":") + Canonicalize(a.intentContext)
      && f[6] == Ascii("\"payload\":") + Canonicalize(a.payload)
      && f[7] == Ascii("\"supersedesCommitId\":") + PrintedOption(a.supersedesCommitId)
      && f[8] == Ascii("\"tenantId\":") + Quote(a.tenantId)
      && f[9] == Ascii("\"ts\":") + Quote(Decimal(a.ts))
  {
    var v := SortedValues(a);
    assert v[0] == JStr(a.actorKind) && v[1] == Nullable(a.actorUserId) && v[2] == JStr(a.authorityProof);
    assert v[3] == Nullable(a.caseId) && v[4] == JStr(a.eventType) && v[5] == a.intentContext && v[6] == a.payload;
    assert v[7] == Nullable(a.supersedesCommitId) && v[8] == JStr(a.tenantId) && v[9] == JStr(Decimal(a.ts));
    assert |NAMES| == 10;
    NamesAre();
    hide *;
    NamedField(a, 0, "\"actorKind\":");
    NamedField(a, 1, "\"actorUserId\":");
    NamedField(a, 2, "\"authorityProof\":");
    NamedField(a, 3, "\"caseId\":");
    NamedField(a, 4, "\"eventType\":");
    NamedField(a, 5, "\"intentContext\":");
    NamedField(a, 6, "\"payload\":");
    NamedField(a, 7, "\"supersedesCommitId\":");
    NamedField(a, 8, "\"tenantId\":");
    NamedField(a, 9, "\"ts\":");
    PrintedString(a.actorKind);
    PrintedNullable(a.actorUserId);
    PrintedString(a.authorityProof);
    PrintedNullable(a.caseId);
    PrintedString(a.eventType);
    PrintedNullable(a.supersedesCommitId);
    PrintedString(a.tenantId);
    PrintedString(Decimal(a.ts));
  }

  lemma {:induction false} PrintedString(t: Text)
    ensures Valid(JStr(t)) && Canonicalize(JStr(t)) == Quote(t)
  {
    PrintedScalars(JStr(t));
    hide Quote;
  }

  lemma {:induction false} NamesAre()
    ensures |NAMES| == 10
    ensures "\"" + NAMES[0] + "\":" == "\"actorKind\":" && "\"" + NAMES[1] + "\":" == "\"actorUserId\":"
    ensures "\"" + NAMES[2] + "\":" == "\"authorityProof\":" && "\"" + NAMES[3] + "\":" == "\"caseId\":"
    ensures "\"" + NAMES[4] + "\":" == "\"eventType\":" && "\"" + NAMES[5] + "\":" == "\"intentContext\":"
    ensures "\"" + NAMES[6] + "\":" == "\"payload\":" && "\"" + NAMES[7] + "\":" == "\"supersedesCommitId\":"
    ensures "\"" + NAMES[8] + "\":" == "\"tenantId\":" && "\"" + NAMES[9] + "\":" == "\"ts\":"
  {
  }

  function PrintedOption(o: Option<Text>): Text {
    if o.Some? then Quote(o.value) else Ascii("null")
  }

  lemma {:induction false} PrintedNullable(o: Option<Text>)
    ensures Valid(Nullable(o)) && Canonicalize(Nullable(o)) == PrintedOption(o)
  {
    PrintedScalars(Nullable(o));
  }

  lemma {:induction false} NamedField(a: Authoritative, i: nat, head: string)
    requires ValidRecord(a) && i < 10 && head == "\"" + NAMES[i] + "\":"
    ensures Valid(SortedValues(a)[i])
    ensures PrintedFields(a)[i] == Ascii(head) + Canonicalize(SortedValues(a)[i])
  {
    ValuesAreValidSorted(a, i);
    PlainQuote(NAMES[i]);
    assert Ascii(head) == Ascii("\"") + Ascii(NAMES[i]) + Ascii("\"") + Ascii(":");
    hide Ascii, Canonicalize, Quote, SortedValues, Valid;
  }

  /** A sequence number prints its decimal digits, most significant first. */
  lemma {:induction false} DecimalDigits(n: nat)
    ensures
      var t := Decimal(n);
      && t != [] && t[|t| - 1] == "0123456789"[n % 10] as int
      && t[..|t| - 1] == if n < 10 then [] else Decimal(n / 10)
  {
  }
}
