/**
 The OAuth callback query: percent-encoding and the bounded choice between an authorization code and a
 provider error. Lengths are those of the UTF-8 text.
 */
module CallbackQuery {
  import opened Common

  const STATE_BYTES: nat := 43
  const MAX_AUTHORIZATION_CODE_BYTES: nat := 512

  datatype Param = Param(name: string, value: string)

  /** The parameters a callback may carry once. */
  datatype Key = CodeKey | StateKey | ErrorKey | DescriptionKey | UriKey

  datatype QueryError =
    | InvalidEncoding | DuplicateParameter | MissingState | InvalidState | InvalidOutcome | InvalidCode

  datatype Authorization = Code(code: string) | Denied | ProviderFailed

  datatype Parsed = Accepted(authorization: Authorization, state: string) | Refused(error: QueryError)

  function KeyOf(name: string): Option<Key> {
    match name
    case "code" => Some(CodeKey)
    case "state" => Some(StateKey)
    case "error" => Some(ErrorKey)
    case "error_description" => Some(DescriptionKey)
    case "error_uri" => Some(UriKey)
    case _ => None
  }

  /** A decoded parameter with its name recognised; the key of any other name is none. */
  datatype Item = Item(key: Option<Key>, value: string)

  function Recognise(p: Param): Item {
    Item(KeyOf(p.name), p.value)
  }

  function Items(params: seq<Param>): seq<Item> {
    if params == [] then [] else Items(params[..|params| - 1]) + [Recognise(params[|params| - 1])]
  }

  predicate IsHex(c: char) {
    '0' <= c <= '9' || 'a' <= c <= 'f' || 'A' <= c <= 'F'
  }

  /** A percent sign at `i` is followed by two hexadecimal digits. */
  predicate EscapedAt(query: string, i: nat)
    requires i < |query|
  {
    query[i] == '%' ==> i + 2 < |query| && IsHex(query[i + 1]) && IsHex(query[i + 2])
  }

  ghost predicate Escaped(query: string) {
    forall i :: 0 <= i < |query| ==> EscapedAt(query, i)
  }

  /** Skipping over a whole escape misses no percent sign. */
  method ValidPercentEncoding(query: string) returns (valid: bool)
    ensures valid <==> Escaped(query)
  {
    var index := 0;
    while index < |query|
      invariant forall i :: 0 <= i < index && i < |query| ==> EscapedAt(query, i)
    {
      if query[index] == '%' {
        if index + 2 >= |query| || !IsHex(query[index + 1]) || !IsHex(query[index + 2]) {
          assert !EscapedAt(query, index);
          return false;
        }
        index := index + 3;
      } else {
        index := index + 1;
      }
    }
    valid := true;
  }

  /** How often a key occurs. */
  function Count(items: seq<Item>, key: Key): nat {
    if items == [] then 0
    else Count(items[..|items| - 1], key) + if items[|items| - 1].key == Some(key) then 1 else 0
  }

  /** The last value given for a key. */
  function Value(items: seq<Item>, key: Key): Option<string> {
    if items == [] then None
    else if items[|items| - 1].key == Some(key) then Some(items[|items| - 1].value)
    else Value(items[..|items| - 1], key)
  }

  ghost predicate Repeats(items: seq<Item>) {
    exists key :: Count(items, key) > 1
  }

  predicate IsDenial(error: string) {
    error == "access_denied"
  }

  /** The decision once every known parameter has at most one value. */
  function Decide(
    code: Option<string>, state: Option<string>, error: Option<string>, description: Option<string>,
    uri: Option<string>): Parsed
  {
    if state.None? then Refused(MissingState)
    else if Utf8Length(state.value) != STATE_BYTES then Refused(InvalidState)
    else if code.Some? && error.None? && description.None? && uri.None? then
      if |code.value| == 0 || Utf8Length(code.value) > MAX_AUTHORIZATION_CODE_BYTES then Refused(InvalidCode)
      else Accepted(Code(code.value), state.value)
    else if code.None? && error.Some? && |error.value| > 0 then
      Accepted(if IsDenial(error.value) then Denied else ProviderFailed, state.value)
    else Refused(InvalidOutcome)
  }

  /** What a list of recognised parameters means. */
  ghost function Meaning(items: seq<Item>): Parsed {
    if Repeats(items) then Refused(DuplicateParameter)
    else Decide(Value(items, CodeKey), Value(items, StateKey), Value(items, ErrorKey),
                Value(items, DescriptionKey), Value(items, UriKey))
  }

  function Slot(slots: map<Key, string>, key: Key): Option<string> {
    if key in slots then Some(slots[key]) else None
  }

  /** The slots hold the only value of every key seen so far. */
  ghost predicate Filled(slots: map<Key, string>, items: seq<Item>) {
    forall key :: Slot(slots, key) == Value(items, key) && Count(items, key) == if key in slots then 1 else 0
  }

  lemma FillSlot(slots: map<Key, string>, items: seq<Item>, last: Item)
    requires Filled(slots, items)
    ensures last.key.None? ==> Filled(slots, items + [last])
    ensures last.key.Some? && last.key.value !in slots ==>
              Filled(slots[last.key.value := last.value], items + [last])
    ensures last.key.Some? && last.key.value in slots ==>
              Count(items + [last], last.key.value) > 1
  {
    assert (items + [last])[..|items|] == items;
  }

  /** Fills one slot per known name and stops at the first slot that is already full. */
  method FillSlots(items: seq<Item>) returns (slots: map<Key, string>, duplicate: bool)
    ensures duplicate <==> Repeats(items)
    ensures !duplicate ==> Filled(slots, items)
  {
    slots := map[];
    for i := 0 to |items|
      invariant Filled(slots, items[..i])
    {
      var key := items[i].key;
      FillSlot(slots, items[..i], items[i]);
      TakeNext(items, i);
      if key.Some? {
        if key.value in slots {
          CountGrows(items, i + 1, key.value);
          return slots, true;
        }
        slots := slots[key.value := items[i].value];
      }
    }
    assert items[..|items|] == items;
    duplicate := false;
  }

  method ParseCallbackQuery(query: string, decode: string -> seq<Param>) returns (r: Parsed)
    ensures r == if Escaped(query) then Meaning(Items(decode(query))) else Refused(InvalidEncoding)
  {
    var valid := ValidPercentEncoding(query);
    if !valid {
      return Refused(InvalidEncoding);
    }
    var slots, duplicate := FillSlots(Items(decode(query)));
    if duplicate {
      return Refused(DuplicateParameter);
    }
    r := Decide(Slot(slots, CodeKey), Slot(slots, StateKey), Slot(slots, ErrorKey),
                Slot(slots, DescriptionKey), Slot(slots, UriKey));
  }

  lemma {:induction false} CountGrows(items: seq<Item>, i: nat, key: Key)
    requires i <= |items|
    ensures Count(items[..i], key) <= Count(items, key)
    decreases |items|
  {
    if i < |items| {
      CountGrows(items[..|items| - 1], i, key);
      assert items[..|items| - 1][..i] == items[..i];
    } else {
      assert items[..i] == items;
    }
  }

  /** The values given for a key. */
  function Given(items: seq<Item>, key: Key): multiset<string> {
    if items == [] then multiset{}
    else
      var last := items[|items| - 1];
      Given(items[..|items| - 1], key) + if last.key == Some(key) then multiset{last.value} else multiset{}
  }

  lemma {:induction false} GivenCount(items: seq<Item>, key: Key)
    ensures Count(items, key) == |Given(items, key)|
  {
    if items != [] {
      GivenCount(items[..|items| - 1], key);
    }
  }

  lemma {:induction false} GivenValue(items: seq<Item>, key: Key)
    ensures Value(items, key).None? <==> Count(items, key) == 0
    ensures Value(items, key).Some? ==> Value(items, key).value in Given(items, key)
  {
    if items != [] {
      GivenValue(items[..|items| - 1], key);
    }
  }

  lemma GivenFacts(items: seq<Item>, key: Key)
    ensures Count(items, key) == |Given(items, key)|
    ensures Value(items, key).None? <==> Given(items, key) == multiset{}
    ensures Value(items, key).Some? ==> Value(items, key).value in Given(items, key)
  {
    GivenCount(items, key);
    GivenValue(items, key);
  }

  /** The values given for the known names decide the outcome; their order and the rest do not matter. */
  lemma SameGivenSameMeaning(a: seq<Item>, b: seq<Item>)
    requires forall key :: Given(a, key) == Given(b, key)
    ensures Meaning(a) == Meaning(b)
  {
    forall key
      ensures Count(a, key) == Count(b, key)
      ensures Count(a, key) <= 1 ==> Value(a, key) == Value(b, key)
    {
      GivenFacts(a, key);
      GivenFacts(b, key);
      if Count(a, key) == 1 {
        OnlyMember(Given(a, key), Value(a, key).value, Value(b, key).value);
      }
    }
    if !Repeats(a) {
      assert Count(a, CodeKey) <= 1 && Count(a, StateKey) <= 1 && Count(a, ErrorKey) <= 1;
      assert Count(a, DescriptionKey) <= 1 && Count(a, UriKey) <= 1;
    }
  }

  lemma OnlyMember(m: multiset<string>, x: string, y: string)
    requires |m| == 1 && x in m && y in m
    ensures x == y
  {
    assert |m - multiset{x}| == 0;
    assert m == multiset{x} + (m - multiset{x});
  }

  /** The known parameters, in order. */
  function OnlyKnown(items: seq<Item>): seq<Item> {
    if items == [] then []
    else
      var last := items[|items| - 1];
      OnlyKnown(items[..|items| - 1]) + if last.key.Some? then [last] else []
  }

  lemma GivenAppend(items: seq<Item>, last: Item, key: Key)
    ensures Given(items + [last], key) ==
            Given(items, key) + if last.key == Some(key) then multiset{last.value} else multiset{}
  {
    assert (items + [last])[..|items|] == items;
  }

  lemma {:induction false} GivenIgnoresUnknown(items: seq<Item>, key: Key)
    ensures Given(OnlyKnown(items), key) == Given(items, key)
  {
    if items != [] {
      var n := |items| - 1;
      GivenIgnoresUnknown(items[..n], key);
      if items[n].key.Some? {
        GivenAppend(OnlyKnown(items[..n]), items[n], key);
      } else {
        assert OnlyKnown(items) == OnlyKnown(items[..n]);
      }
    }
  }

  lemma {:induction false} GivenMultiplicity(items: seq<Item>, key: Key, value: string)
    ensures Given(items, key)[value] == multiset(items)[Item(Some(key), value)]
  {
    if items != [] {
      var n := |items| - 1;
      GivenMultiplicity(items[..n], key, value);
      assert items == items[..n] + [items[n]];
    }
  }

  lemma GivenByMultiset(a: seq<Item>, b: seq<Item>, key: Key)
    requires multiset(a) == multiset(b)
    ensures Given(a, key) == Given(b, key)
  {
    forall value ensures Given(a, key)[value] == Given(b, key)[value] {
      GivenMultiplicity(a, key, value);
      GivenMultiplicity(b, key, value);
    }
  }

  /** Permuting the parameters and inserting or dropping unknown ones anywhere changes nothing. */
  lemma OrderAndUnknownsAreIrrelevant(a: seq<Item>, b: seq<Item>)
    requires multiset(OnlyKnown(a)) == multiset(OnlyKnown(b))
    ensures Meaning(a) == Meaning(b)
  {
    forall key ensures Given(a, key) == Given(b, key) {
      GivenIgnoresUnknown(a, key);
      GivenIgnoresUnknown(b, key);
      GivenByMultiset(OnlyKnown(a), OnlyKnown(b), key);
    }
    SameGivenSameMeaning(a, b);
  }

  function NameOf(key: Key): string {
    match key
    case CodeKey => "code"
    case StateKey => "state"
    case ErrorKey => "error"
    case DescriptionKey => "error_description"
    case UriKey => "error_uri"
  }

  lemma KeyNames(name: string, key: Key)
    ensures KeyOf(name) == Some(key) <==> name == NameOf(key)
  {
    assert |"code"| == 4 && |"state"| == 5 && |"error"| == 5 && |"error_description"| == 17 && |"error_uri"| == 9;
    assert "state"[0] != "error"[0];
  }

  lemma ParamIs(p: Param, key: Key, value: string)
    ensures Recognise(p) == Item(Some(key), value) <==> p == Param(NameOf(key), value)
  {
    KeyNames(p.name, key);
  }

  lemma AppendedCount<T>(s: seq<T>, last: T, x: T)
    ensures multiset(s + [last])[x] == multiset(s)[x] + if last == x then 1 else 0
  {
  }

  /** How often a value is given for a key, counted in the decoded parameters. */
  lemma {:induction false} ItemMultiplicity(params: seq<Param>, key: Key, value: string)
    ensures multiset(Items(params))[Item(Some(key), value)] == multiset(params)[Param(NameOf(key), value)]
  {
    if params != [] {
      var n := |params| - 1;
      ItemMultiplicity(params[..n], key, value);
      ParamIs(params[n], key, value);
      AppendedCount(params[..n], params[n], Param(NameOf(key), value));
      AppendedCount(Items(params[..n]), Recognise(params[n]), Item(Some(key), value));
      assert params == params[..n] + [params[n]];
    }
  }

  /** The order in which the parameters arrive does not matter. */
  lemma PermutationInvariant(a: seq<Param>, b: seq<Param>)
    requires multiset(a) == multiset(b)
    ensures Meaning(Items(a)) == Meaning(Items(b))
  {
    forall key ensures Given(Items(a), key) == Given(Items(b), key) {
      forall value ensures Given(Items(a), key)[value] == Given(Items(b), key)[value] {
        GivenMultiplicity(Items(a), key, value);
        GivenMultiplicity(Items(b), key, value);
        ItemMultiplicity(a, key, value);
        ItemMultiplicity(b, key, value);
      }
    }
    SameGivenSameMeaning(Items(a), Items(b));
  }

  /** Both parameters fill the same slot. */
  predicate Clash(a: Item, b: Item) {
    a.key.Some? && a.key == b.key
  }

  /** Exactly the queries with a repeated known parameter are refused as duplicates. */
  lemma DuplicatesAreRefused(items: seq<Item>)
    ensures Meaning(items) == Refused(DuplicateParameter) <==>
            exists i, j :: 0 <= i < j < |items| && Clash(items[i], items[j])
  {
    if Repeats(items) {
      var key :| Count(items, key) > 1;
      var i, j := TwoOccurrences(items, key);
      assert Clash(items[i], items[j]);
    }
    if i, j :| 0 <= i < j < |items| && Clash(items[i], items[j]) {
      TwoCounted(items, i, j, items[i].key.value);
    }
  }

  lemma {:induction false} OneOccurrence(items: seq<Item>, key: Key) returns (i: nat)
    requires Count(items, key) > 0
    ensures i < |items| && items[i].key == Some(key)
  {
    i := |items| - 1;
    if items[i].key != Some(key) {
      i := OneOccurrence(items[..|items| - 1], key);
    }
  }

  lemma {:induction false} TwoOccurrences(items: seq<Item>, key: Key) returns (i: nat, j: nat)
    requires Count(items, key) > 1
    ensures i < j < |items| && items[i].key == Some(key) && items[j].key == Some(key)
  {
    var n := |items| - 1;
    if items[n].key == Some(key) {
      i := OneOccurrence(items[..n], key);
      j := n;
    } else {
      i, j := TwoOccurrences(items[..n], key);
    }
  }

  lemma {:induction false} TwoCounted(items: seq<Item>, i: nat, j: nat, key: Key)
    requires i < j < |items| && items[i].key == Some(key) && items[j].key == Some(key)
    ensures Count(items, key) > 1
  {
    assert items[..i + 1][..i] == items[..i];
    assert items[..j + 1][..j] == items[..j];
    CountGrows(items[..j], i + 1, key);
    assert items[..j][..i + 1] == items[..i + 1];
    CountGrows(items, j + 1, key);
  }

  /** The key is given exactly once, with this value. */
  ghost predicate Once(items: seq<Item>, key: Key, value: string) {
    Given(items, key) == multiset{value}
  }

  ghost predicate Absent(items: seq<Item>, key: Key) {
    Given(items, key) == multiset{}
  }

  lemma OnceIsSlot(items: seq<Item>, key: Key, value: string)
    ensures Once(items, key, value) <==> Count(items, key) == 1 && Value(items, key) == Some(value)
  {
    GivenFacts(items, key);
    var given := Given(items, key);
    if |given| == 1 && Value(items, key) == Some(value) {
      assert |given - multiset{value}| == 0;
      assert given == multiset{value} + (given - multiset{value});
    }
  }

  lemma AbsentIsSlot(items: seq<Item>, key: Key)
    ensures Absent(items, key) <==> Value(items, key).None?
    ensures Absent(items, key) <==> Count(items, key) == 0
  {
    GivenFacts(items, key);
  }

  lemma RepeatsByKey(items: seq<Item>)
    ensures Repeats(items) <==>
            || Count(items, CodeKey) > 1 || Count(items, StateKey) > 1 || Count(items, ErrorKey) > 1
            || Count(items, DescriptionKey) > 1 || Count(items, UriKey) > 1
  {
    if Repeats(items) {
      var key :| Count(items, key) > 1;
      match key
      case CodeKey =>
      case StateKey =>
      case ErrorKey =>
      case DescriptionKey =>
      case UriKey =>
    }
  }

  /** When an authorization code comes out: alone, bounded, beside one full-length state. */
  lemma CodeIsAlone(items: seq<Item>, code: string, state: string)
    ensures Meaning(items) == Accepted(Code(code), state) <==>
            && Once(items, StateKey, state) && Utf8Length(state) == STATE_BYTES
            && Once(items, CodeKey, code) && |code| > 0 && Utf8Length(code) <= MAX_AUTHORIZATION_CODE_BYTES
            && Absent(items, ErrorKey) && Absent(items, DescriptionKey) && Absent(items, UriKey)
  {
    OnceIsSlot(items, StateKey, state);
    OnceIsSlot(items, CodeKey, code);
    AbsentIsSlot(items, CodeKey);
    AbsentIsSlot(items, StateKey);
    AbsentIsSlot(items, ErrorKey);
    AbsentIsSlot(items, DescriptionKey);
    AbsentIsSlot(items, UriKey);
    RepeatsByKey(items);
  }

  /** One non-empty error is given, and it is a denial or not. */
  ghost predicate Reports(items: seq<Item>, denied: bool) {
    exists e :: Once(items, ErrorKey, e) && |e| > 0 && (denied <==> e == "access_denied")
  }

  lemma ReportsIsSlot(items: seq<Item>, denied: bool)
    ensures Reports(items, denied) <==>
            && Count(items, ErrorKey) == 1 && Value(items, ErrorKey).Some? && |Value(items, ErrorKey).value| > 0
            && (denied <==> Value(items, ErrorKey).value == "access_denied")
  {
    forall e ensures Once(items, ErrorKey, e) <==> Count(items, ErrorKey) == 1 && Value(items, ErrorKey) == Some(e) {
      OnceIsSlot(items, ErrorKey, e);
    }
  }

  lemma DecideError(
    code: Option<string>, state: Option<string>, error: Option<string>, description: Option<string>,
    uri: Option<string>, denied: bool, expected: string)
    ensures var outcome := if denied then Denied else ProviderFailed;
            Decide(code, state, error, description, uri) == Accepted(outcome, expected) <==>
            && state == Some(expected) && Utf8Length(expected) == STATE_BYTES && code.None?
            && error.Some? && |error.value| > 0 && (denied <==> error.value == "access_denied")
  {
  }

  /** When a provider error comes out: no code, one non-empty error, and no repeated detail. */
  lemma ErrorHasNoCode(items: seq<Item>, denied: bool, state: string)
    ensures Meaning(items) == Accepted(if denied then Denied else ProviderFailed, state) <==>
            && Once(items, StateKey, state) && Utf8Length(state) == STATE_BYTES
            && Absent(items, CodeKey) && Reports(items, denied)
            && Count(items, DescriptionKey) <= 1 && Count(items, UriKey) <= 1
  {
    OnceIsSlot(items, StateKey, state);
    AbsentIsSlot(items, StateKey);
    AbsentIsSlot(items, CodeKey);
    AbsentIsSlot(items, ErrorKey);
    ReportsIsSlot(items, denied);
    RepeatsByKey(items);
    DecideError(Value(items, CodeKey), Value(items, StateKey), Value(items, ErrorKey),
                Value(items, DescriptionKey), Value(items, UriKey), denied, state);
  }

  /** One state is given, and its length is wrong. */
  ghost predicate BadState(items: seq<Item>) {
    exists state :: Once(items, StateKey, state) && Utf8Length(state) != 43
  }

  lemma BadStateIsSlot(items: seq<Item>)
    ensures BadState(items) <==>
            && Count(items, StateKey) == 1 && Value(items, StateKey).Some?
            && Utf8Length(Value(items, StateKey).value) != 43
  {
    forall s ensures Once(items, StateKey, s) <==> Count(items, StateKey) == 1 && Value(items, StateKey) == Some(s) {
      OnceIsSlot(items, StateKey, s);
    }
  }

  /** A query without a repetition is refused for its state exactly when the state is missing or of a wrong length. */
  lemma StateRefusals(items: seq<Item>)
    ensures Meaning(items) == Refused(MissingState) <==> !Repeats(items) && Absent(items, StateKey)
    ensures Meaning(items) == Refused(InvalidState) <==> !Repeats(items) && BadState(items)
  {
    AbsentIsSlot(items, StateKey);
    BadStateIsSlot(items);
    RepeatsByKey(items);
  }

  /** The one code given is empty or too long. */
  ghost predicate BadCode(items: seq<Item>) {
    exists code :: Once(items, CodeKey, code) && (code == "" || Utf8Length(code) > 512)
  }

  lemma BadCodeIsSlot(items: seq<Item>)
    ensures BadCode(items) <==>
            && Count(items, CodeKey) == 1 && Value(items, CodeKey).Some?
            && (Value(items, CodeKey).value == "" || Utf8Length(Value(items, CodeKey).value) > 512)
  {
    forall c ensures Once(items, CodeKey, c) <==> Count(items, CodeKey) == 1 && Value(items, CodeKey) == Some(c) {
      OnceIsSlot(items, CodeKey, c);
    }
  }

  /** A code is refused for itself exactly when it comes alone beside a good state, empty or too long. */
  lemma CodeRefusals(items: seq<Item>)
    ensures Meaning(items) == Refused(InvalidCode) <==>
            && !Repeats(items) && !Absent(items, StateKey) && !BadState(items) && BadCode(items)
            && Absent(items, ErrorKey) && Absent(items, DescriptionKey) && Absent(items, UriKey)
  {
    AbsentIsSlot(items, StateKey);
    AbsentIsSlot(items, CodeKey);
    AbsentIsSlot(items, ErrorKey);
    AbsentIsSlot(items, DescriptionKey);
    AbsentIsSlot(items, UriKey);
    BadStateIsSlot(items);
    BadCodeIsSlot(items);
    RepeatsByKey(items);
  }
}
