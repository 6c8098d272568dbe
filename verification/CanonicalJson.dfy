/** The canonical JSON printer whose output is hashed, and a parser that undoes it. */
module CanonicalJson {
  import opened Common
  import opened JsonText

  /** A finite number is represented by the text that prints it, except for -0, which prints as 0; NaN and
      the infinities print as null. */
  datatype Number = Finite(text: Text) | NegativeZero | NonFinite

  const ZERO_TEXT: Text := [0x30]

  datatype Json =
    | JNull
    | JBool(b: bool)
    | JNum(n: Number)
    | JStr(s: Text)
    | JArr(items: seq<Json>)
    | JObj(members: seq<Member>)   // own enumerable properties, in insertion order

  datatype Member = Member(key: Text, value: Json)

  predicate NumberUnit(u: Unit) {
    0x30 <= u <= 0x39 || u == 0x2D || u == 0x2B || u == 0x2E || u == 0x65 || u == 0x45
  }

  predicate NumberText(t: Text) {
    && t != [] && (0x30 <= t[0] <= 0x39 || t[0] == 0x2D)
    && forall i :: 0 <= i < |t| ==> NumberUnit(t[i])
  }

  function Keys(ms: seq<Member>): (r: seq<Text>)
    ensures |r| == |ms|
    ensures forall i :: 0 <= i < |ms| ==> r[i] == ms[i].key
  {
    seq(|ms|, i requires 0 <= i < |ms| => ms[i].key)
  }

  /** A value that JavaScript can hold: property names are distinct, finite numbers print as JSON numbers. */
  predicate Valid(v: Json) {
    match v
    case JNum(Finite(t)) => NumberText(t)
    case JArr(items) => forall i :: 0 <= i < |items| ==> Valid(items[i])
    case JObj(ms) => Distinct(Keys(ms)) && forall i :: 0 <= i < |ms| ==> Valid(ms[i].value)
    case _ => true
  }

  /** value[k] */
  function IndexOf(ms: seq<Member>, k: Text): (i: nat)
    requires k in Keys(ms)
    ensures i < |ms| && ms[i].key == k
  {
    if ms[0].key == k then 0
    else
      assert k in Keys(ms[1..]) by { var j :| 0 <= j < |ms| && Keys(ms)[j] == k; assert Keys(ms[1..])[j - 1] == k; }
      1 + IndexOf(ms[1..], k)
  }

  // ---- The printer ----

  function Canonicalize(v: Json): Text
    requires Valid(v)
    decreases v, 1, 0
  {
    match v
    case JNull => NULL_TEXT
    case JBool(b) => if b then TRUE_TEXT else FALSE_TEXT
    case JNum(Finite(t)) => t
    case JNum(NegativeZero) => ZERO_TEXT
    case JNum(NonFinite) => NULL_TEXT
    case JStr(s) => Quote(s)
    case JArr(_) => [LBRACKET] + JoinItems(v, 0) + [RBRACKET]
    case JObj(ms) => [LBRACE] + JoinMembers(v, SortKeys(Keys(ms))) + [RBRACE]
  }

  /** The items from `i` on, joined by commas. */
  function JoinItems(v: Json, i: nat): Text
    requires v.JArr? && Valid(v) && i <= |v.items|
    decreases v, 0, |v.items| - i
  {
    if i == |v.items| then []
    else if i + 1 == |v.items| then Canonicalize(v.items[i])
    else Canonicalize(v.items[i]) + [COMMA] + JoinItems(v, i + 1)
  }

  /** `key:value` for each key in turn, joined by commas. */
  function JoinMembers(v: Json, keys: seq<Text>): Text
    requires v.JObj? && Valid(v) && forall k :: k in keys ==> k in Keys(v.members)
    decreases v, 0, |keys|
  {
    if keys == [] then []
    else
      var value := v.members[IndexOf(v.members, keys[0])].value;
      var first := Quote(keys[0]) + [COLON] + Canonicalize(value);
      if |keys| == 1 then first else first + [COMMA] + JoinMembers(v, keys[1..])
  }

  // ---- The value a text stands for: keys sorted at every depth, -0 as 0, non-finite numbers as null ----

  function Normal(v: Json): Json
    requires Valid(v)
    decreases v, 1, 0
  {
    match v
    case JNum(NonFinite) => JNull
    case JNum(NegativeZero) => JNum(Finite(ZERO_TEXT))
    case JArr(items) => JArr(seq(|items|, i requires 0 <= i < |items| => Normal(items[i])))
    case JObj(ms) => JObj(NormalMembers(v, SortKeys(Keys(ms))))
    case _ => v
  }

  function NormalMembers(v: Json, keys: seq<Text>): (r: seq<Member>)
    requires v.JObj? && Valid(v) && forall k :: k in keys ==> k in Keys(v.members)
    ensures |r| == |keys|
    ensures forall i :: 0 <= i < |keys| ==>
            r[i] == Member(keys[i], Normal(v.members[IndexOf(v.members, keys[i])].value))
    decreases v, 0, |keys|
  {
    if keys == [] then []
    else [Member(keys[0], Normal(v.members[IndexOf(v.members, keys[0])].value))] + NormalMembers(v, keys[1..])
  }

  // ---- The parser ----

  type Parsed<T> = Option<(T, Text)>

  function NumberRun(t: Text): (n: nat)
    ensures n <= |t|
  {
    if t == [] || !NumberUnit(t[0]) then 0 else 1 + NumberRun(t[1..])
  }

  function Parse(t: Text): (r: Parsed<Json>)
    ensures r.Some? ==> |r.value.1| < |t|
    decreases |t|, 1
  {
    if t == [] then None
    else if t[0] == QUOTE then
      var s := Unquote(t[1..]);
      if s.None? then None else Some((JStr(s.value.0), s.value.1))
    else if t[0] == LBRACKET then
      if |t| > 1 && t[1] == RBRACKET then Some((JArr([]), t[2..]))
      else
        var items := ParseItems(t[1..]);
        if items.None? then None else Some((JArr(items.value.0), items.value.1))
    else if t[0] == LBRACE then
      if |t| > 1 && t[1] == RBRACE then Some((JObj([]), t[2..]))
      else
        var ms := ParseMembers(t[1..]);
        if ms.None? then None else Some((JObj(ms.value.0), ms.value.1))
    else if NULL_TEXT <= t then Some((JNull, t[4..]))
    else if TRUE_TEXT <= t then Some((JBool(true), t[4..]))
    else if FALSE_TEXT <= t then Some((JBool(false), t[5..]))
    else if NumberRun(t) > 0 then Some((JNum(Finite(t[..NumberRun(t)])), t[NumberRun(t)..]))
    else None
  }

  /** One or more values separated by commas, up to and including the closing bracket. */
  function ParseItems(t: Text): (r: Parsed<seq<Json>>)
    ensures r.Some? ==> |r.value.1| < |t|
    decreases |t|, 2
  {
    var first := Parse(t);
    if first.None? || first.value.1 == [] then None
    else if first.value.1[0] == RBRACKET then Some(([first.value.0], first.value.1[1..]))
    else if first.value.1[0] != COMMA then None
    else
      var more := ParseItems(first.value.1[1..]);
      if more.None? then None else Some(([first.value.0] + more.value.0, more.value.1))
  }

  /** One or more `key:value` pairs separated by commas, up to and including the closing brace. */
  function ParseMembers(t: Text): (r: Parsed<seq<Member>>)
    ensures r.Some? ==> |r.value.1| < |t|
    decreases |t|, 2
  {
    if t == [] || t[0] != QUOTE then None
    else
      var key := Unquote(t[1..]);
      if key.None? || key.value.1 == [] || key.value.1[0] != COLON then None
      else
        var value := Parse(key.value.1[1..]);
        if value.None? || value.value.1 == [] then None
        else
          var first := Member(key.value.0, value.value.0);
          if value.value.1[0] == RBRACE then Some(([first], value.value.1[1..]))
          else if value.value.1[0] != COMMA then None
          else
            var more := ParseMembers(value.value.1[1..]);
            if more.None? then None else Some(([first] + more.value.0, more.value.1))
  }

  // ---- Round trip ----

  /** The rest of the text cannot be mistaken for the continuation of a number. */
  predicate Delimits(rest: Text) {
    rest == [] || !NumberUnit(rest[0])
  }

  lemma {:induction false} NumberRunRoundTrip(t: Text, rest: Text)
    requires forall i :: 0 <= i < |t| ==> NumberUnit(t[i])
    requires Delimits(rest)
    ensures NumberRun(t + rest) == |t|
  {
    if t == [] {
      assert t + rest == rest;
    } else {
      assert (t + rest)[1..] == t[1..] + rest;
      NumberRunRoundTrip(t[1..], rest);
    }
  }

  /** The first unit of a printed value; it never closes or separates. */
  lemma {:induction false} Opening(v: Json)
    requires Valid(v)
    ensures Canonicalize(v) != []
    ensures Canonicalize(v)[0] !in {COMMA, COLON, RBRACKET, RBRACE}
  {
  }

  lemma {:induction false} NumberRoundTrip(n: Text, rest: Text)
    requires NumberText(n) && Delimits(rest)
    ensures Parse(n + rest) == Some((JNum(Finite(n)), rest))
  {
    var t := n + rest;
    NumberRunRoundTrip(n, rest);
    assert t[..|n|] == n && t[|n|..] == rest;
    assert t[0] == n[0];
  }

  lemma {:induction false} LiteralRoundTrip(v: Json, rest: Text)
    requires Valid(v) && Delimits(rest) && (v.JNull? || v.JBool? || v.JNum? || v.JStr?)
    ensures Parse(Canonicalize(v) + rest) == Some((Normal(v), rest))
  {
    var t := Canonicalize(v) + rest;
    match v
    case JNull => assert t[4..] == rest;
    case JBool(true) => assert t[4..] == rest;
    case JBool(false) => assert t[5..] == rest;
    case JNum(NonFinite) => assert t[4..] == rest;
    case JNum(NegativeZero) => NumberRoundTrip(ZERO_TEXT, rest);
    case JNum(Finite(n)) => NumberRoundTrip(n, rest);
    case JStr(s) => QuoteRoundTrip(s, rest);
  }

  /** Parsing what was printed, followed by anything that delimits it, gives the value and the rest back. */
  lemma {:induction false} RoundTrip(v: Json, rest: Text)
    requires Valid(v) && Delimits(rest)
    ensures Parse(Canonicalize(v) + rest) == Some((Normal(v), rest))
    decreases v, 1, 0
  {
    match v
    case JArr(items) => ArrayRoundTrip(v, rest);
    case JObj(ms) => ObjectRoundTrip(v, rest);
    case _ => LiteralRoundTrip(v, rest);
  }

  lemma {:induction false} ParseArrayStep(t: Text)
    requires t != [] && t[0] == LBRACKET
    ensures |t| > 1 && t[1] == RBRACKET ==> Parse(t) == Some((JArr([]), t[2..]))
    ensures |t| > 1 && t[1] != RBRACKET && ParseItems(t[1..]).Some? ==>
              Parse(t) == Some((JArr(ParseItems(t[1..]).value.0), ParseItems(t[1..]).value.1))
  {
  }

  lemma {:induction false} ArrayRoundTrip(v: Json, rest: Text)
    requires Valid(v) && v.JArr?
    ensures Parse(Canonicalize(v) + rest) == Some((Normal(v), rest))
    decreases v, 0, |v.items| + 1
  {
    var t := Canonicalize(v) + rest;
    assert t[1..] == JoinItems(v, 0) + [RBRACKET] + rest;
    ParseArrayStep(t);
    assert NormalFrom(v, 0) == Normal(v).items;
    if v.items == [] {
      assert t[2..] == rest;
    } else {
      Opening(v.items[0]);
      assert t[1] == Canonicalize(v.items[0])[0];
      hide Parse, ParseItems, Normal, JoinItems;
      ItemsRoundTrip(v, 0, rest);
    }
  }

  lemma {:induction false} ParseItemsStep(t: Text, v: Json, separator: Unit, more: Text)
    requires Parse(t) == Some((v, [separator] + more))
    ensures separator == RBRACKET ==> ParseItems(t) == Some(([v], more))
    ensures separator == COMMA && ParseItems(more).Some? ==>
              ParseItems(t) == Some(([v] + ParseItems(more).value.0, ParseItems(more).value.1))
  {
    assert ([separator] + more)[1..] == more;
  }

  /** The printed items from `i` on, the closing bracket, and what follows. */
  function ItemsText(v: Json, i: nat, rest: Text): Text
    requires Valid(v) && v.JArr? && i <= |v.items|
  {
    JoinItems(v, i) + [RBRACKET] + rest
  }

  /** It splits into the first item, its separator, and the text after it. */
  lemma {:induction false} ItemsTextStep(v: Json, i: nat, rest: Text)
    requires Valid(v) && v.JArr? && i < |v.items|
    ensures i + 1 == |v.items| ==> ItemsText(v, i, rest) == Canonicalize(v.items[i]) + ([RBRACKET] + rest)
    ensures i + 1 < |v.items| ==>
              ItemsText(v, i, rest) == Canonicalize(v.items[i]) + ([COMMA] + ItemsText(v, i + 1, rest))
  {
  }

  /** The normalised items from `i` on. */
  function NormalFrom(v: Json, i: nat): (r: seq<Json>)
    requires Valid(v) && v.JArr? && i <= |v.items|
    ensures |r| == |v.items| - i
    ensures forall j :: i <= j < |v.items| ==> r[j - i] == Normal(v.items[j])
    decreases |v.items| - i
  {
    if i == |v.items| then [] else [Normal(v.items[i])] + NormalFrom(v, i + 1)
  }

  lemma {:induction false} NormalFromStep(v: Json, i: nat)
    requires Valid(v) && v.JArr? && i < |v.items|
    ensures i + 1 == |v.items| ==> NormalFrom(v, i) == [Normal(v.items[i])]
    ensures i + 1 < |v.items| ==> NormalFrom(v, i) == [Normal(v.items[i])] + NormalFrom(v, i + 1)
  {
  }

  lemma {:induction false} ItemRoundTrip(t: Text, first: Json, separator: Unit, more: Text)
    requires Valid(first) && (separator == COMMA || separator == RBRACKET)
    requires t == Canonicalize(first) + ([separator] + more)
    ensures Parse(t) == Some((Normal(first), [separator] + more))
    decreases first, 2, 0
  {
    RoundTrip(first, [separator] + more);
  }

  lemma {:induction false} ItemsRoundTrip(v: Json, i: nat, rest: Text)
    requires Valid(v) && v.JArr? && i < |v.items|
    ensures ParseItems(ItemsText(v, i, rest)) == Some((NormalFrom(v, i), rest))
    decreases v, 0, |v.items| - i
  {
    var t := ItemsText(v, i, rest);
    ItemsTextStep(v, i, rest);
    NormalFromStep(v, i);
    assert Valid(v.items[i]);
    hide *;
    if i + 1 == |v.items| {
      ItemRoundTrip(t, v.items[i], RBRACKET, rest);
      ParseItemsStep(t, Normal(v.items[i]), RBRACKET, rest);
    } else {
      var more := ItemsText(v, i + 1, rest);
      ItemRoundTrip(t, v.items[i], COMMA, more);
      ItemsRoundTrip(v, i + 1, rest);
      ParseItemsStep(t, Normal(v.items[i]), COMMA, more);
    }
  }

  lemma {:induction false} ParseObjectStep(t: Text)
    requires t != [] && t[0] == LBRACE
    ensures |t| > 1 && t[1] == RBRACE ==> Parse(t) == Some((JObj([]), t[2..]))
    ensures |t| > 1 && t[1] != RBRACE && ParseMembers(t[1..]).Some? ==>
              Parse(t) == Some((JObj(ParseMembers(t[1..]).value.0), ParseMembers(t[1..]).value.1))
  {
  }

  lemma {:induction false} ObjectRoundTrip(v: Json, rest: Text)
    requires Valid(v) && v.JObj?
    ensures Parse(Canonicalize(v) + rest) == Some((Normal(v), rest))
    decreases v, 0, |v.members| + 1
  {
    var keys := SortKeys(Keys(v.members));
    var t := Canonicalize(v) + rest;
    ObjectText(v, keys, rest);
    if keys == [] {
      ParseObjectStep(t);
      assert t[2..] == rest;
    } else {
      hide Parse, ParseMembers, Unquote, Normal, NormalMembers, IndexOf, JoinMembers, Canonicalize, Valid, MembersText,
        SortKeys, Keys, Quote;
      ParseObjectStep(t);
      MembersRoundTrip(v, keys, rest);
    }
  }

  lemma {:induction false} ObjectText(v: Json, keys: seq<Text>, rest: Text)
    requires Valid(v) && v.JObj? && keys == SortKeys(Keys(v.members))
    ensures Normal(v) == JObj(NormalMembers(v, keys))
    ensures
      var t := Canonicalize(v) + rest;
      |t| > 1 && t[0] == LBRACE && t[1..] == MembersText(v, keys, rest) && (keys != [] ==> t[1] == QUOTE)
  {
    var t := Canonicalize(v) + rest;
    assert t[1..] == MembersText(v, keys, rest);
    if keys != [] {
      assert t[1] == Quote(keys[0])[0];
    }
  }

  lemma {:induction false} ParseMembersStep(t: Text, key: Text, text: Text, v: Json, separator: Unit, more: Text)
    requires t != [] && t[0] == QUOTE && Unquote(t[1..]) == Some((key, [COLON] + text))
    requires Parse(text) == Some((v, [separator] + more))
    ensures separator == RBRACE ==> ParseMembers(t) == Some(([Member(key, v)], more))
    ensures separator == COMMA && ParseMembers(more).Some? ==>
              ParseMembers(t) == Some(([Member(key, v)] + ParseMembers(more).value.0, ParseMembers(more).value.1))
  {
    assert ([separator] + more)[1..] == more;
    assert ([COLON] + text)[1..] == text;
  }

  /** The printed members for these keys, the closing brace, and what follows. */
  function MembersText(v: Json, keys: seq<Text>, rest: Text): Text
    requires v.JObj? && Valid(v) && forall k :: k in keys ==> k in Keys(v.members)
  {
    JoinMembers(v, keys) + [RBRACE] + rest
  }

  function ValueAt(v: Json, k: Text): (r: Json)
    requires v.JObj? && Valid(v) && k in Keys(v.members)
    ensures Valid(r) && r < v
  {
    v.members[IndexOf(v.members, k)].value
  }

  /** It splits into the first key, its value, the separator, and the text after it. */
  lemma {:induction false} MembersTextStep(v: Json, keys: seq<Text>, rest: Text)
    requires v.JObj? && Valid(v) && keys != [] && forall k :: k in keys ==> k in Keys(v.members)
    ensures |keys| == 1 ==>
              MembersText(v, keys, rest)
              == Quote(keys[0]) + ([COLON] + (Canonicalize(ValueAt(v, keys[0])) + ([RBRACE] + rest)))
    ensures |keys| > 1 ==>
              MembersText(v, keys, rest)
              == Quote(keys[0]) + ([COLON] + (Canonicalize(ValueAt(v, keys[0]))
                                       + ([COMMA] + MembersText(v, keys[1..], rest))))
  {
    var key, text := Quote(keys[0]), Canonicalize(ValueAt(v, keys[0]));
    JoinMembersStep(v, keys);
    assert MembersText(v, keys, rest) == JoinMembers(v, keys) + [RBRACE] + rest;
    if |keys| == 1 {
      hide *;
      RegroupLast(key, text, rest);
    } else {
      assert MembersText(v, keys[1..], rest) == JoinMembers(v, keys[1..]) + [RBRACE] + rest;
      hide *;
      RegroupNext(key, text, JoinMembers(v, keys[1..]), rest);
    }
  }

  lemma {:induction false} JoinMembersStep(v: Json, keys: seq<Text>)
    requires v.JObj? && Valid(v) && keys != [] && forall k :: k in keys ==> k in Keys(v.members)
    ensures |keys| == 1 ==> JoinMembers(v, keys) == Quote(keys[0]) + [COLON] + Canonicalize(ValueAt(v, keys[0]))
    ensures |keys| > 1 ==>
              JoinMembers(v, keys)
              == Quote(keys[0]) + [COLON] + Canonicalize(ValueAt(v, keys[0])) + [COMMA] + JoinMembers(v, keys[1..])
  {
  }

  lemma {:induction false} RegroupLast(key: Text, text: Text, rest: Text)
    ensures key + [COLON] + text + [RBRACE] + rest == key + ([COLON] + (text + ([RBRACE] + rest)))
  {
  }

  lemma {:induction false} RegroupNext(key: Text, text: Text, more: Text, rest: Text)
    ensures key + [COLON] + text + [COMMA] + more + [RBRACE] + rest
            == key + ([COLON] + (text + ([COMMA] + (more + [RBRACE] + rest))))
  {
  }

  lemma {:induction false} NormalMembersStep(v: Json, keys: seq<Text>)
    requires v.JObj? && Valid(v) && keys != [] && forall k :: k in keys ==> k in Keys(v.members)
    ensures |keys| == 1 ==> NormalMembers(v, keys) == [Member(keys[0], Normal(ValueAt(v, keys[0])))]
    ensures |keys| > 1 ==>
              NormalMembers(v, keys) == [Member(keys[0], Normal(ValueAt(v, keys[0])))] + NormalMembers(v, keys[1..])
  {
  }

  lemma {:induction false} MemberRoundTrip(t: Text, key: Text, value: Json, separator: Unit, more: Text)
    requires Valid(value) && (separator == COMMA || separator == RBRACE)
    requires t == Quote(key) + ([COLON] + (Canonicalize(value) + ([separator] + more)))
    ensures separator == RBRACE ==> ParseMembers(t) == Some(([Member(key, Normal(value))], more))
    ensures separator == COMMA && ParseMembers(more).Some? ==>
              ParseMembers(t)
              == Some(([Member(key, Normal(value))] + ParseMembers(more).value.0, ParseMembers(more).value.1))
    decreases value, 2, 0
  {
    var text := Canonicalize(value) + ([separator] + more);
    assert Delimits([separator] + more);
    assert Quote(key)[0] == QUOTE;
    hide Parse, ParseMembers, Unquote, Normal, Canonicalize, Valid;
    RoundTrip(value, [separator] + more);
    QuoteRoundTrip(key, [COLON] + text);
    ParseMembersStep(t, key, text, Normal(value), separator, more);
  }

  lemma {:induction false} MembersRoundTrip(v: Json, keys: seq<Text>, rest: Text)
    requires v.JObj? && Valid(v) && keys != [] && forall k :: k in keys ==> k in Keys(v.members)
    ensures ParseMembers(MembersText(v, keys, rest)) == Some((NormalMembers(v, keys), rest))
    decreases v, 0, |keys|
  {
    var t := MembersText(v, keys, rest);
    MembersTextStep(v, keys, rest);
    NormalMembersStep(v, keys);
    hide *;
    if |keys| == 1 {
      MemberRoundTrip(t, keys[0], ValueAt(v, keys[0]), RBRACE, rest);
    } else {
      MembersRoundTrip(v, keys[1..], rest);
      MemberRoundTrip(t, keys[0], ValueAt(v, keys[0]), COMMA, MembersText(v, keys[1..], rest));
    }
  }

  // ---- Injectivity ----

  predicate Nullish(v: Json) {
    v.JNull? || (v.JNum? && v.n.NonFinite?)
  }

  predicate Zero(v: Json) {
    v.JNum? && (v.n.NegativeZero? || v.n == Finite(ZERO_TEXT))
  }

  /** Equal as JSON values: property order is irrelevant at every depth, -0 counts as 0 and non-finite
      numbers count as null. */
  ghost predicate Same(a: Json, b: Json) {
    if Nullish(a) || Nullish(b) then Nullish(a) && Nullish(b)
    else if Zero(a) || Zero(b) then Zero(a) && Zero(b)
    else if a.JArr? && b.JArr? then
      |a.items| == |b.items| && forall i :: 0 <= i < |a.items| ==> Same(a.items[i], b.items[i])
    else if a.JObj? && b.JObj? then
      |a.members| == |b.members| && forall i :: 0 <= i < |a.members| ==> HasSame(a.members[i], b.members)
    else a == b
  }

  ghost predicate HasSame(m: Member, ns: seq<Member>) {
    exists j :: 0 <= j < |ns| && m.key == ns[j].key && Same(m.value, ns[j].value)
  }

  lemma {:induction false} KeysAreDistinct(ms: seq<Member>, i: nat, j: nat)
    requires Distinct(Keys(ms)) && i < |ms| && j < |ms| && ms[i].key == ms[j].key
    ensures i == j
  {
    assert Keys(ms)[i] == Keys(ms)[j];
  }

  lemma {:induction false} SameSizeSameKeys(a: seq<Text>, b: seq<Text>)
    requires Distinct(a) && Distinct(b) && |a| == |b| && forall k :: k in a ==> k in b
    ensures SortKeys(a) == SortKeys(b)
  {
    SetOfDistinct(a);
    SetOfDistinct(b);
    SubsetSize(SetOf(a), SetOf(b));
    forall k ensures k in a <==> k in b { assert k in SetOf(a) <==> k in SetOf(b); }
    SortedIsCanonical(SortKeys(a), SortKeys(b));
  }

  lemma {:induction false} SamePrintsSame(a: Json, b: Json)
    requires Valid(a) && Valid(b) && Same(a, b)
    ensures Canonicalize(a) == Canonicalize(b)
    decreases a, 1, 0
  {
    if a.JArr? && b.JArr? { SameItems(a, b, 0); }
    if a.JObj? && b.JObj? {
      forall k | k in Keys(a.members) ensures k in Keys(b.members) {
        var i :| 0 <= i < |a.members| && Keys(a.members)[i] == k;
        assert HasSame(a.members[i], b.members);
        var j :| 0 <= j < |b.members| && a.members[i].key == b.members[j].key;
        assert Keys(b.members)[j] == k;
      }
      SameSizeSameKeys(Keys(a.members), Keys(b.members));
      SameMembers(a, b, SortKeys(Keys(a.members)));
    }
  }

  lemma {:induction false} SameItems(a: Json, b: Json, i: nat)
    requires Valid(a) && Valid(b) && Same(a, b) && a.JArr? && b.JArr? && i <= |a.items|
    ensures JoinItems(a, i) == JoinItems(b, i)
    decreases a, 0, |a.items| - i
  {
    if i < |a.items| {
      SamePrintsSame(a.items[i], b.items[i]);
      SameItems(a, b, i + 1);
    }
  }

  lemma {:induction false} SameMembers(a: Json, b: Json, keys: seq<Text>)
    requires Valid(a) && Valid(b) && Same(a, b) && a.JObj? && b.JObj?
    requires forall k :: k in keys ==> k in Keys(a.members) && k in Keys(b.members)
    ensures JoinMembers(a, keys) == JoinMembers(b, keys)
    decreases a, 0, |keys|
  {
    if keys != [] {
      var i := IndexOf(a.members, keys[0]);
      assert HasSame(a.members[i], b.members);
      var j :| 0 <= j < |b.members| && a.members[i].key == b.members[j].key
               && Same(a.members[i].value, b.members[j].value);
      KeysAreDistinct(b.members, j, IndexOf(b.members, keys[0]));
      SamePrintsSame(a.members[i].value, b.members[j].value);
      SameMembers(a, b, keys[1..]);
    }
  }

  lemma {:induction false} NormalIsSame(a: Json, b: Json)
    requires Valid(a) && Valid(b) && Normal(a) == Normal(b)
    ensures Same(a, b)
    decreases a, 1
  {
    if a.JArr? && b.JArr? {
      forall i | 0 <= i < |a.items| ensures Same(a.items[i], b.items[i]) {
        assert Normal(a).items[i] == Normal(b).items[i];
        NormalIsSame(a.items[i], b.items[i]);
      }
    } else if a.JObj? && b.JObj? {
      NormalObjectsAreSame(a, b);
    }
  }

  lemma {:induction false} NormalObjectsAreSame(a: Json, b: Json)
    requires Valid(a) && Valid(b) && Normal(a) == Normal(b) && a.JObj? && b.JObj?
    ensures Same(a, b)
    decreases a, 0
  {
    assert |NormalMembers(a, SortKeys(Keys(a.members)))| == |NormalMembers(b, SortKeys(Keys(b.members)))|;
    hide Normal, NormalMembers, SortKeys;
    forall i | 0 <= i < |a.members| ensures HasSame(a.members[i], b.members) {
      var j := NormalMember(a, b, i);
      NormalIsSame(a.members[i].value, b.members[j].value);
    }
  }

  /** Objects with the same normal form hold, under each key, values with the same normal form. */
  lemma {:induction false} NormalMember(a: Json, b: Json, i: nat) returns (j: nat)
    requires Valid(a) && Valid(b) && a.JObj? && b.JObj? && Normal(a) == Normal(b) && i < |a.members|
    ensures j < |b.members| && a.members[i].key == b.members[j].key
    ensures Normal(a.members[i].value) == Normal(b.members[j].value)
  {
    var keys := SortKeys(Keys(a.members));
    var na, nb := NormalMembers(a, keys), NormalMembers(b, SortKeys(Keys(b.members)));
    assert na == nb;
    var k := a.members[i].key;
    assert Keys(a.members)[i] == k;
    assert k in Keys(a.members) && k in keys;
    var p :| 0 <= p < |keys| && keys[p] == k;
    assert na[p].key == nb[p].key;
    j := IndexOf(b.members, k);
    KeysAreDistinct(a.members, i, IndexOf(a.members, k));
  }

  /** The printed text determines the value up to property order, and nothing less. */
  lemma {:induction false} CanonicalizeIsInjective(a: Json, b: Json)
    requires Valid(a) && Valid(b)
    ensures Canonicalize(a) == Canonicalize(b) <==> Same(a, b)
  {
    RoundTrip(a, []);
    RoundTrip(b, []);
    assert Canonicalize(a) + [] == Canonicalize(a) && Canonicalize(b) + [] == Canonicalize(b);
    if Same(a, b) { SamePrintsSame(a, b); }
    if Normal(a) == Normal(b) { NormalIsSame(a, b); }
  }

  /** What prints like null is null or a non-finite number. */
  lemma {:induction false} NonFiniteCollidesWithNull(v: Json)
    requires Valid(v) && Canonicalize(v) == Canonicalize(JNull)
    ensures v == JNull || v == JNum(NonFinite)
  {
    CanonicalizeIsInjective(v, JNull);
  }

  /** Among scalars the printer confuses exactly two kinds of distinct values: non-finite numbers with each
      other and with null, and -0 with 0. */
  lemma {:induction false} ScalarCollisions(a: Json, b: Json)
    requires Valid(a) && Valid(b) && !a.JArr? && !a.JObj? && a != b
    ensures Canonicalize(a) == Canonicalize(b) <==> (Nullish(a) && Nullish(b)) || (Zero(a) && Zero(b))
  {
    CanonicalizeIsInjective(a, b);
  }

  // ---- The order of the printed keys ----

  /** Code units decide: after a common start one key ends or has the smaller unit. */
  predicate ComesFirst(a: Text, b: Text) {
    exists n :: 0 <= n <= |a| && n <= |b| && a[..n] == b[..n]
                && ((n == |a| && n < |b|) || (n < |a| && n < |b| && a[n] < b[n]))
  }

  /** The properties of every object, at every depth, stand in ascending order of their names. */
  predicate KeysAscend(v: Json) {
    match v
    case JArr(items) => forall i :: 0 <= i < |items| ==> KeysAscend(items[i])
    case JObj(ms) =>
      && (forall i, j :: 0 <= i < j < |ms| ==> ComesFirst(ms[i].key, ms[j].key))
      && (forall i :: 0 <= i < |ms| ==> KeysAscend(ms[i].value))
    case _ => true
  }

  lemma {:induction false} LessComesFirst(a: Text, b: Text)
    requires Less(a, b)
    ensures ComesFirst(a, b)
    decreases a
  {
    if a == [] || a[0] < b[0] {
      assert a[..0] == b[..0];
    } else {
      LessComesFirst(a[1..], b[1..]);
      var n :| 0 <= n <= |a[1..]| && n <= |b[1..]| && a[1..][..n] == b[1..][..n]
               && ((n == |a[1..]| && n < |b[1..]|) || (n < |a[1..]| && n < |b[1..]| && a[1..][n] < b[1..][n]));
      assert a[..n + 1] == [a[0]] + a[1..][..n] && b[..n + 1] == [b[0]] + b[1..][..n];
      assert 0 <= n + 1 <= |a|;
    }
  }

  lemma {:induction false} NormalAscends(v: Json)
    requires Valid(v)
    ensures KeysAscend(Normal(v))
  {
    match v
    case JArr(items) =>
      forall i | 0 <= i < |items| ensures KeysAscend(Normal(v).items[i]) { NormalAscends(items[i]); }
    case JObj(ms) => NormalMembersAscend(v, SortKeys(Keys(ms)));
    case _ =>
  }

  lemma {:induction false} NormalMembersAscend(v: Json, keys: seq<Text>)
    requires v.JObj? && Valid(v) && Sorted(keys) && forall k :: k in keys ==> k in Keys(v.members)
    ensures KeysAscend(JObj(NormalMembers(v, keys)))
    decreases v, 0
  {
    var ms := NormalMembers(v, keys);
    forall i, j | 0 <= i < j < |ms| ensures ComesFirst(ms[i].key, ms[j].key) { LessComesFirst(keys[i], keys[j]); }
    forall i | 0 <= i < |ms| ensures KeysAscend(ms[i].value) { NormalAscends(ValueAt(v, keys[i])); }
    hide Sorted, NormalMembers, ComesFirst;
  }

  /** Whatever is printed reads back, to the last unit, as a value whose properties ascend at every depth. */
  lemma {:induction false} PrintedKeysAscend(v: Json)
    requires Valid(v)
    ensures
      var r := Parse(Canonicalize(v));
      r.Some? && r.value.1 == [] && KeysAscend(r.value.0)
  {
    RoundTrip(v, []);
    NormalAscends(v);
    assert Canonicalize(v) + [] == Canonicalize(v);
    hide Normal, Parse, Canonicalize, KeysAscend;
  }

  // ---- The printed text itself ----

  /** What scalars print; strings are the subject of QuotedUnits. */
  lemma {:induction false} PrintedScalars(v: Json)
    requires Valid(v)
    ensures v.JNull? || v == JNum(NonFinite) ==> Canonicalize(v) == Ascii("null")
    ensures v == JBool(true) ==> Canonicalize(v) == Ascii("true")
    ensures v == JBool(false) ==> Canonicalize(v) == Ascii("false")
    ensures v == JNum(NegativeZero) ==> Canonicalize(v) == Ascii("0")
    ensures v.JNum? && v.n.Finite? ==> Canonicalize(v) == v.n.text
    ensures v.JStr? ==> Canonicalize(v) == Quote(v.s)
  {
    hide Quote;
  }

  function Join(parts: seq<Text>): Text {
    if parts == [] then []
    else if |parts| == 1 then parts[0]
    else parts[0] + Ascii(",") + Join(parts[1..])
  }

  function PrintedItems(v: Json, i: nat): (r: seq<Text>)
    requires v.JArr? && Valid(v) && i <= |v.items|
    ensures |r| == |v.items| - i
  {
    seq(|v.items| - i, k requires 0 <= k < |v.items| - i => Canonicalize(v.items[i + k]))
  }

  /** An array prints its items in order between brackets, separated by commas. */
  lemma {:induction false} PrintedArray(v: Json)
    requires v.JArr? && Valid(v)
    ensures Canonicalize(v) == Ascii("[") + Join(PrintedItems(v, 0)) + Ascii("]")
  {
    ItemsAreJoined(v, 0);
    Marks();
    hide JoinItems, Join, PrintedItems, Ascii;
  }

  lemma {:induction false} JoinStep(parts: seq<Text>)
    requires parts != []
    ensures |parts| == 1 ==> Join(parts) == parts[0]
    ensures |parts| > 1 ==> Join(parts) == parts[0] + [COMMA] + Join(parts[1..])
  {
    Marks();
    hide Ascii;
  }

  lemma {:induction false} JoinItemsStep(v: Json, i: nat)
    requires v.JArr? && Valid(v) && i < |v.items|
    ensures i + 1 == |v.items| ==> JoinItems(v, i) == Canonicalize(v.items[i])
    ensures i + 1 < |v.items| ==> JoinItems(v, i) == Canonicalize(v.items[i]) + [COMMA] + JoinItems(v, i + 1)
  {
    hide Canonicalize;
  }

  lemma {:induction false} NextItems(v: Json, i: nat)
    requires v.JArr? && Valid(v) && i < |v.items|
    ensures PrintedItems(v, i)[0] == Canonicalize(v.items[i])
    ensures PrintedItems(v, i)[1..] == PrintedItems(v, i + 1)
  {
    hide Canonicalize;
  }

  lemma {:induction false} ItemsAreJoined(v: Json, i: nat)
    requires v.JArr? && Valid(v) && i <= |v.items|
    ensures JoinItems(v, i) == Join(PrintedItems(v, i))
    decreases |v.items| - i
  {
    if i < |v.items| {
      var parts := PrintedItems(v, i);
      NextItems(v, i);
      hide *;
      ItemsAreJoined(v, i + 1);
      JoinStep(parts);
      JoinItemsStep(v, i);
    }
  }

  function PrintedMembers(v: Json, keys: seq<Text>): (r: seq<Text>)
    requires v.JObj? && Valid(v) && forall k :: k in keys ==> k in Keys(v.members)
    ensures |r| == |keys|
  {
    seq(|keys|, i requires 0 <= i < |keys| => Quote(keys[i]) + Ascii(":") + Canonicalize(ValueAt(v, keys[i])))
  }

  /** An object prints its properties between braces, separated by commas, name, colon, value, and in the
      one order in which their names ascend. */
  lemma {:induction false} PrintedObject(v: Json, keys: seq<Text>)
    requires v.JObj? && Valid(v) && forall k :: k in keys <==> k in Keys(v.members)
    requires forall i, j :: 0 <= i < j < |keys| ==> ComesFirst(keys[i], keys[j])
    ensures Canonicalize(v) == Ascii("{") + Join(PrintedMembers(v, keys)) + Ascii("}")
  {
    forall i, j | 0 <= i < j < |keys| ensures Less(keys[i], keys[j]) { FirstIsLess(keys[i], keys[j]); }
    SortedIsCanonical(keys, SortKeys(Keys(v.members)));
    MembersAreJoined(v, keys);
    Marks();
    hide Ascii, PrintedMembers, Join, JoinMembers, ComesFirst, SortKeys, Less;
  }

  lemma {:induction false} FirstIsLess(a: Text, b: Text)
    requires ComesFirst(a, b)
    ensures Less(a, b)
    decreases a
  {
    var n :| 0 <= n <= |a| && n <= |b| && a[..n] == b[..n]
             && ((n == |a| && n < |b|) || (n < |a| && n < |b| && a[n] < b[n]));
    if n > 0 {
      assert a[0] == a[..n][0] == b[..n][0] == b[0];
      assert a[1..][..n - 1] == a[..n][1..] && b[1..][..n - 1] == b[..n][1..];
      assert ComesFirst(a[1..], b[1..]);
      FirstIsLess(a[1..], b[1..]);
    }
  }

  lemma {:induction false} MembersAreJoined(v: Json, keys: seq<Text>)
    requires v.JObj? && Valid(v) && forall k :: k in keys ==> k in Keys(v.members)
    ensures JoinMembers(v, keys) == Join(PrintedMembers(v, keys))
    decreases |keys|
  {
    if keys != [] {
      MembersAreJoined(v, keys[1..]);
      JoinMembersStep(v, keys);
      assert PrintedMembers(v, keys)[1..] == PrintedMembers(v, keys[1..]);
      Marks();
      hide Ascii, Canonicalize, Quote, JoinMembers, ValueAt;
    }
  }

  // ---- The numbers covered ----

  predicate Digits(t: Text) {
    t != [] && forall i :: 0 <= i < |t| ==> t[i] in Ascii("0123456789")
  }

  /** Every text that a finite number prints as is covered: digits with an optional minus, fraction and exponent. */
  lemma {:induction false} NumbersAreCovered(minus: bool, whole: Text, fraction: Option<Text>,
                                             exponent: Option<(bool, Text)>)
    requires Digits(whole) && (fraction.Some? ==> Digits(fraction.value))
    requires exponent.Some? ==> Digits(exponent.value.1)
    ensures
      var t := (if minus then Ascii("-") else []) + whole
               + (if fraction.Some? then Ascii(".") + fraction.value else [])
               + (if exponent.Some? then (if exponent.value.0 then Ascii("e-") else Ascii("e+")) + exponent.value.1
                  else []);
      Valid(JNum(Finite(t))) && Canonicalize(JNum(Finite(t))) == t
  {
    AllUnits(whole);
    if fraction.Some? { AllUnits(fraction.value); }
    if exponent.Some? { AllUnits(exponent.value.1); }
    hide Digits;
    var head := (if minus then Ascii("-") else []) + whole;
    var middle := if fraction.Some? then Ascii(".") + fraction.value else [];
    var tail := if exponent.Some?
      then (if exponent.value.0 then Ascii("e-") else Ascii("e+")) + exponent.value.1 else [];
    assert forall i :: 0 <= i < |head| ==> NumberUnit(head[i]);
    assert forall i :: 0 <= i < |middle| ==> NumberUnit(middle[i]);
    assert forall i :: 0 <= i < |tail| ==> NumberUnit(tail[i]);
    assert head[0] == 0x2D || 0x30 <= head[0] <= 0x39;
    hide NumberUnit;
    assert NumberText(head + middle + tail);
  }

  lemma {:induction false} AllUnits(t: Text)
    requires Digits(t)
    ensures forall i :: 0 <= i < |t| ==> NumberUnit(t[i]) && 0x30 <= t[i] <= 0x39
  {
    forall i | 0 <= i < |t| ensures 0x30 <= t[i] <= 0x39 {
      var k :| 0 <= k < 10 && t[i] == Ascii("0123456789")[k];
      assert Ascii("0123456789")[k] == "0123456789"[k] as int % 0x1_0000;
    }
  }
}
