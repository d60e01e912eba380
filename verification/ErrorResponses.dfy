/** The OpenAPI `responses` map derived from error classes (`app/http/openapi.py`). */
module ErrorResponses {
  import opened Types

  const VALIDATION_STATUS := 422
  const VALIDATION_CODE := "validation_error"
  const VALIDATION_DESCRIPTION := "The request failed schema validation."

  const EXAMPLE_REQUEST_ID := "3f1a9c2e7b8d4f5a9e0c1b2d3a4f5e6c"

  type Status = nat

  datatype Detail = Detail(code: string, message: string, data: Option<string>)

  /** What a default instance would send: the error detail and the response headers. */
  datatype Instance = Instance(detail: Detail, headers: map<string, string>)

  /** An `AppError` subclass: its attributes, its cleaned docstring, and its default instance, None when
      the constructor demands arguments. */
  datatype ErrorClass = ErrorClass(status: Status, code: string, doc: string, instance: Option<Instance>)

  /** The body a client receives for an error; its `data` is null. */
  datatype Envelope = Envelope(success: bool, message: string, errors: seq<Detail>, requestId: string)

  datatype Example = Example(summary: string, value: Envelope)

  datatype HeaderDoc = HeaderDoc(description: string, example: string)

  /** One entry of the map; `headers` is left out when no error has any. */
  datatype Entry = Entry(description: string, examples: map<string, Example>, headers: Option<map<string, HeaderDoc>>)

  function Describe(error: ErrorClass): string {
    if error.doc != "" then error.doc else "The request failed."
  }

  /** `_envelope_example`. */
  function EnvelopeExample(detail: Detail): Envelope {
    Envelope(false, detail.message, [detail], EXAMPLE_REQUEST_ID)
  }

  function ExampleOf(error: ErrorClass): Example {
    Example(error.code, EnvelopeExample(
      if error.instance.None? then Detail(error.code, Describe(error), None) else error.instance.value.detail))
  }

  function HeadersOf(error: ErrorClass): map<string, string> {
    if error.instance.None? then map[] else error.instance.value.headers
  }

  const VALIDATION_EXAMPLE :=
    Example(VALIDATION_CODE, EnvelopeExample(Detail(VALIDATION_CODE, "Field required", None)))

  function Decimal(n: nat): string {
    var digit := [('0' as int + n % 10) as char];
    if n < 10 then digit else Decimal(n / 10) + digit
  }

  function HeaderDescription(name: string, status: Status): string {
    if name == "Retry-After" then "Seconds to wait before retrying the request."
    else "Sent with every " + Decimal(status) + " response."
  }

  /** `_document_headers`, if there is anything to document. */
  function DocumentHeaders(headers: map<string, string>, status: Status): Option<map<string, HeaderDoc>> {
    if headers == map[] then None
    else Some(map name | name in headers :: HeaderDoc(HeaderDescription(name, status), headers[name]))
  }

  /** `" ".join`. */
  function Joined(parts: seq<string>): string {
    if parts == [] then ""
    else if |parts| == 1 then parts[0]
    else Joined(parts[..|parts| - 1]) + " " + parts[|parts| - 1]
  }

  // ---- the specification ---------------------------------------------------------------------------

  /** The errors of one status, in the order given. */
  function Group(errors: seq<ErrorClass>, status: Status): seq<ErrorClass> {
    if errors == [] then []
    else
      var last := errors[|errors| - 1];
      Group(errors[..|errors| - 1], status) + if last.status == status then [last] else []
  }

  function Statuses(errors: seq<ErrorClass>, validation: bool): set<Status> {
    (set e | e in errors :: e.status) + if validation then {VALIDATION_STATUS} else {}
  }

  function Descriptions(group: seq<ErrorClass>): seq<string> {
    if group == [] then [] else Descriptions(group[..|group| - 1]) + [Describe(group[|group| - 1])]
  }

  function Examples(group: seq<ErrorClass>): map<string, Example> {
    if group == [] then map[]
    else Examples(group[..|group| - 1])[group[|group| - 1].code := ExampleOf(group[|group| - 1])]
  }

  function Headers(group: seq<ErrorClass>): map<string, string> {
    if group == [] then map[] else Headers(group[..|group| - 1]) + HeadersOf(group[|group| - 1])
  }

  /** The entry of a status. */
  function EntryOf(group: seq<ErrorClass>, status: Status, validation: bool): Entry {
    var schema := validation && status == VALIDATION_STATUS;
    Entry(Joined(Descriptions(group) + if schema then [VALIDATION_DESCRIPTION] else []),
          if schema then Examples(group)[VALIDATION_CODE := VALIDATION_EXAMPLE] else Examples(group),
          DocumentHeaders(Headers(group), status))
  }

  ghost predicate Increasing(keys: seq<Status>) {
    forall i, j :: 0 <= i < j < |keys| ==> keys[i] < keys[j]
  }

  function Elements(keys: seq<Status>): set<Status> {
    set k | k in keys
  }

  lemma AppendGreater(keys: seq<Status>, k: Status)
    requires Increasing(keys) && forall i :: 0 <= i < |keys| ==> keys[i] < k
    ensures Increasing(keys + [k]) && Elements(keys + [k]) == Elements(keys) + {k}
  {
    var more := keys + [k];
    assert forall x :: x in more <==> x in keys || x == k;
  }

  // ---- the code ------------------------------------------------------------------------------------

  /** `sorted(grouped.items())`: the keys are distinct, so only they are compared. */
  method Sorted(keys: set<Status>) returns (r: seq<Status>)
    ensures Increasing(r) && Elements(r) == keys
  {
    r := [];
    var rest := keys;
    while rest != {}
      invariant rest <= keys && Elements(r) == keys - rest && Increasing(r)
      invariant forall k, m :: k in r && m in rest ==> k < m
      decreases |rest|
    {
      var least := Least(rest);
      assert forall i :: 0 <= i < |r| ==> r[i] in r;
      AppendGreater(r, least);
      r, rest := r + [least], rest - {least};
    }
  }

  method Least(keys: set<Status>) returns (least: Status)
    requires keys != {}
    ensures least in keys && forall k :: k in keys ==> least <= k
  {
    least :| least in keys;
    var rest := keys - {least};
    while rest != {}
      invariant rest <= keys && least in keys
      invariant forall k :: k in keys && k !in rest ==> least <= k
      decreases |rest|
    {
      var k :| k in rest;
      rest := rest - {k};
      least := if k < least then k else least;
    }
  }

  lemma OneMore(errors: seq<ErrorClass>, i: nat)
    requires i < |errors|
    ensures Statuses(errors[..i + 1], false) == Statuses(errors[..i], false) + {errors[i].status}
    ensures forall s ::
              Group(errors[..i + 1], s) == Group(errors[..i], s) + if errors[i].status == s then [errors[i]] else []
  {
    assert errors[..i + 1][..i] == errors[..i];
    assert errors[..i + 1] == errors[..i] + [errors[i]];
  }

  method Grouped(errors: seq<ErrorClass>, validation: bool) returns (grouped: map<Status, seq<ErrorClass>>)
    ensures grouped.Keys == Statuses(errors, validation)
    ensures forall s :: s in grouped ==> grouped[s] == Group(errors, s)
  {
    grouped := map[];
    for i := 0 to |errors|
      invariant grouped.Keys == Statuses(errors[..i], false)
      invariant forall s :: s in grouped ==> grouped[s] == Group(errors[..i], s)
    {
      var error := errors[i];
      OneMore(errors, i);
      if error.status !in grouped {
        NoneOfStatus(errors[..i], error.status);
      }
      grouped := grouped[error.status := (if error.status in grouped then grouped[error.status] else []) + [error]];
    }
    assert errors[..|errors|] == errors;
    if validation && VALIDATION_STATUS !in grouped {
      NoneOfStatus(errors, VALIDATION_STATUS);
      grouped := grouped[VALIDATION_STATUS := []];
    }
  }

  method BuildEntry(group: seq<ErrorClass>, status: Status, validation: bool) returns (entry: Entry)
    ensures entry == EntryOf(group, status, validation)
  {
    var descriptions: seq<string>, examples: map<string, Example>, headers: map<string, string> := [], map[], map[];
    for i := 0 to |group|
      invariant descriptions == Descriptions(group[..i])
      invariant examples == Examples(group[..i])
      invariant headers == Headers(group[..i])
    {
      var error := group[i];
      assert group[..i + 1][..i] == group[..i];
      descriptions := descriptions + [Describe(error)];
      if error.instance.Some? {
        headers := headers + error.instance.value.headers;
      }
      examples := examples[error.code := ExampleOf(error)];
    }
    assert group[..|group|] == group;
    if validation && status == VALIDATION_STATUS {
      descriptions := descriptions + [VALIDATION_DESCRIPTION];
      examples := examples[VALIDATION_CODE := VALIDATION_EXAMPLE];
    } else {
      assert descriptions + [] == descriptions;
    }
    entry := Entry(Joined(descriptions), examples, DocumentHeaders(headers, status));
  }

  /** The entries of some of the statuses. */
  function Documented(errors: seq<ErrorClass>, validation: bool, statuses: set<Status>): map<Status, Entry> {
    map s | s in statuses :: EntryOf(Group(errors, s), s, validation)
  }

  lemma OneMoreDocumented(errors: seq<ErrorClass>, validation: bool, keys: seq<Status>, i: nat)
    requires i < |keys|
    ensures Documented(errors, validation, Elements(keys[..i + 1])) ==
            Documented(errors, validation, Elements(keys[..i]))[
              keys[i] := EntryOf(Group(errors, keys[i]), keys[i], validation)]
  {
    assert keys[..i + 1] == keys[..i] + [keys[i]];
    assert Elements(keys[..i + 1]) == Elements(keys[..i]) + {keys[i]};
  }

  /** `error_responses`: one entry per distinct status, in increasing order. */
  method ErrorResponses(errors: seq<ErrorClass>, validation: bool)
    returns (keys: seq<Status>, responses: map<Status, Entry>)
    ensures Increasing(keys) && Elements(keys) == responses.Keys == Statuses(errors, validation)
    ensures forall s :: s in responses ==> responses[s] == EntryOf(Group(errors, s), s, validation)
  {
    var grouped := Grouped(errors, validation);
    keys := Sorted(grouped.Keys);
    responses := BuildEntries(errors, validation, grouped, keys);
  }

  method BuildEntries(
    errors: seq<ErrorClass>, validation: bool, grouped: map<Status, seq<ErrorClass>>, keys: seq<Status>)
    returns (responses: map<Status, Entry>)
    requires forall k :: k in keys ==> k in grouped && grouped[k] == Group(errors, k)
    ensures responses == Documented(errors, validation, Elements(keys))
  {
    responses := map[];
    for i := 0 to |keys|
      invariant responses == Documented(errors, validation, Elements(keys[..i]))
    {
      var status := keys[i];
      var entry := BuildEntry(grouped[status], status, validation);
      responses := responses[status := entry];
      OneMoreDocumented(errors, validation, keys, i);
    }
    assert keys[..|keys|] == keys;
  }

  // ---- groups partition the input ------------------------------------------------------------------

  lemma {:induction false} NoneOfStatus(errors: seq<ErrorClass>, status: Status)
    requires status !in Statuses(errors, false)
    ensures Group(errors, status) == []
  {
    if errors != [] {
      var front := errors[..|errors| - 1];
      assert errors[|errors| - 1] in errors;
      assert forall e :: e in front ==> e in errors;
      NoneOfStatus(front, status);
    }
  }

  /** Error i stands in the group of its status, after exactly those of that status given before it. */
  lemma {:induction false} GroupKeepsOrder(errors: seq<ErrorClass>, i: nat, status: Status)
    requires i < |errors| && errors[i].status == status
    ensures var at := |Group(errors[..i], status)|;
            at < |Group(errors, status)| && Group(errors, status)[at] == errors[i]
  {
    var front := errors[..|errors| - 1];
    if i == |errors| - 1 {
      assert errors[..i] == front;
    } else {
      assert front[..i] == errors[..i];
      GroupKeepsOrder(front, i, status);
    }
  }

  /** A group holds each error of its status as often as it was given, and no other. */
  lemma {:induction false} GroupIsExact(errors: seq<ErrorClass>, status: Status, e: ErrorClass)
    ensures multiset(Group(errors, status))[e] == if e.status == status then multiset(errors)[e] else 0
  {
    if errors != [] {
      var front, last := errors[..|errors| - 1], errors[|errors| - 1];
      assert errors == front + [last];
      GroupIsExact(front, status, e);
      if last.status == status {
        assert Group(errors, status) == Group(front, status) + [last];
      } else {
        assert Group(errors, status) == Group(front, status);
      }
    }
  }

  // ---- examples ------------------------------------------------------------------------------------

  lemma {:induction false} ExampleNames(group: seq<ErrorClass>)
    ensures Examples(group).Keys == set e | e in group :: e.code
  {
    if group != [] {
      var front, last := group[..|group| - 1], group[|group| - 1];
      ExampleNames(front);
      assert group == front + [last];
    }
  }

  function Codes(errors: seq<ErrorClass>, status: Status): set<string> {
    set e | e in errors && e.status == status :: e.code
  }

  /** The names under a status are the codes of the errors given with that status, and for the
      validation status its own code: each error's code under its own status, nothing foreign. */
  lemma ExamplesAreTheStatusCodes(errors: seq<ErrorClass>, status: Status, validation: bool)
    ensures EntryOf(Group(errors, status), status, validation).examples.Keys ==
            Codes(errors, status) + if validation && status == VALIDATION_STATUS then {VALIDATION_CODE} else {}
  {
    ExampleNames(Group(errors, status));
    forall e
      ensures e in Group(errors, status) <==> e in errors && e.status == status
    {
      GroupIsExact(errors, status, e);
    }
  }

  /** Errors sharing status and code share one example, that of the last of them given. */
  lemma {:induction false} LastErrorIsTheExample(group: seq<ErrorClass>, i: nat)
    requires i < |group| && forall j :: i < j < |group| ==> group[j].code != group[i].code
    ensures group[i].code in Examples(group) && Examples(group)[group[i].code] == ExampleOf(group[i])
  {
    if i < |group| - 1 {
      LastErrorIsTheExample(group[..|group| - 1], i);
    }
  }

  /** A header is documented exactly when some error of the status sends it, with a value one of them sends. */
  lemma {:induction false} HeadersAreSent(group: seq<ErrorClass>, name: string)
    ensures name in Headers(group) <==> exists e :: e in group && name in HeadersOf(e)
    ensures name in Headers(group) ==>
              exists e :: e in group && name in HeadersOf(e) && HeadersOf(e)[name] == Headers(group)[name]
  {
    if group != [] {
      var front, last := group[..|group| - 1], group[|group| - 1];
      HeadersAreSent(front, name);
      assert group == front + [last];
      assert last in group && forall e :: e in front ==> e in group;
    }
  }

  lemma {:induction false} LastSenderWins(group: seq<ErrorClass>, i: nat, name: string)
    requires i < |group| && name in HeadersOf(group[i])
    requires forall j :: i < j < |group| ==> name !in HeadersOf(group[j])
    ensures name in Headers(group) && Headers(group)[name] == HeadersOf(group[i])[name]
  {
    if i < |group| - 1 {
      LastSenderWins(group[..|group| - 1], i, name);
    }
  }

  /** The value documented for a header is that of the last error of the status that sends it. */
  lemma HeaderExample(errors: seq<ErrorClass>, status: Status, validation: bool, i: nat, name: string)
    requires i < |errors| && errors[i].status == status && name in HeadersOf(errors[i])
    requires forall j :: i < j < |errors| && errors[j].status == status ==> name !in HeadersOf(errors[j])
    ensures var headers := EntryOf(Group(errors, status), status, validation).headers;
            && headers.Some? && name in headers.value
            && headers.value[name] == HeaderDoc(HeaderDescription(name, status), HeadersOf(errors[i])[name])
  {
    var group, at := Group(errors, status), |Group(errors[..i], status)|;
    GroupKeepsOrder(errors, i, status);
    LaterInGroup(errors, i, status, (e: ErrorClass) => name in HeadersOf(e));
    LastSenderWins(group, at, name);
  }

  /** The entry of a status documents its headers, and has no `headers` when none is sent. */
  lemma HeadersAreDocumented(errors: seq<ErrorClass>, status: Status, validation: bool, name: string)
    ensures var headers := EntryOf(Group(errors, status), status, validation).headers;
            && ((exists e :: e in errors && e.status == status && name in HeadersOf(e)) <==>
                headers.Some? && name in headers.value)
            && (headers.Some? ==> headers.value != map[])
            && (headers.Some? && name in headers.value ==>
                  && headers.value[name].description == HeaderDescription(name, status)
                  && exists e :: e in errors && e.status == status && name in HeadersOf(e)
                                 && HeadersOf(e)[name] == headers.value[name].example)
  {
    var group := Group(errors, status);
    HeadersAreSent(group, name);
    forall e
      ensures e in group <==> e in errors && e.status == status
    {
      GroupIsExact(errors, status, e);
    }
    var headers := EntryOf(group, status, validation).headers;
    if headers.Some? {
      var some :| some in Headers(group);
      assert some in headers.value;
    }
  }

  // ---- the words of an entry -----------------------------------------------------------------------

  /** Joining puts one space between any two pieces. */
  lemma {:induction false} JoinedOverConcat(a: seq<string>, b: seq<string>)
    ensures Joined([]) == "" && (a != [] && b != [] ==> Joined(a + b) == Joined(a) + " " + Joined(b))
    ensures |a| == 1 ==> Joined(a) == a[0]
  {
    if a != [] && b != [] {
      var front, last := b[..|b| - 1], b[|b| - 1];
      assert (a + b)[..|a + b| - 1] == a + front;
      if |b| > 1 {
        JoinedOverConcat(a, front);
        assert Joined(a) + " " + Joined(front) + " " + last == Joined(a) + " " + (Joined(front) + " " + last);
      } else {
        assert a + front == a;
      }
    }
  }

  /** The description of an error: its docstring, or a stock sentence when it has none. */
  lemma {:induction false} DescriptionsAre(group: seq<ErrorClass>, i: nat)
    requires i < |group|
    ensures |Descriptions(group)| == |group|
    ensures Descriptions(group)[i] == if group[i].doc == "" then "The request failed." else group[i].doc
  {
    var front := group[..|group| - 1];
    if i < |group| - 1 {
      DescriptionsAre(front, i);
    } else if front != [] {
      DescriptionsAre(front, 0);
    }
  }

  /** The description of an entry joins those of its errors in order, then that of the validation. */
  lemma EntryDescribes(errors: seq<ErrorClass>, status: Status, validation: bool)
    ensures EntryOf(Group(errors, status), status, validation).description ==
            Joined(Descriptions(Group(errors, status))
                   + if validation && status == 422 then ["The request failed schema validation."] else [])
  {
  }

  /** The example of the last error with a code under a status: the code as its summary, and the body a client
      receives, with the error's own detail or else its code and description. The validation's example stands in
      for it under 422. */
  lemma EntryExample(errors: seq<ErrorClass>, status: Status, validation: bool, i: nat)
    requires i < |errors| && errors[i].status == status
    requires forall j :: i < j < |errors| && errors[j].status == status ==> errors[j].code != errors[i].code
    ensures var examples, e := EntryOf(Group(errors, status), status, validation).examples, errors[i];
            && e.code in examples
            && var shown := if validation && status == 422 && e.code == "validation_error"
                            then Detail("validation_error", "Field required", None)
                            else if e.instance.Some? then e.instance.value.detail
                            else Detail(e.code, if e.doc == "" then "The request failed." else e.doc, None);
               examples[e.code] == Example(e.code,
                                           Envelope(false, shown.message, [shown], "3f1a9c2e7b8d4f5a9e0c1b2d3a4f5e6c"))
  {
    var group, at := Group(errors, status), |Group(errors[..i], status)|;
    GroupKeepsOrder(errors, i, status);
    LaterInGroup(errors, i, status, (e: ErrorClass) => e.code == errors[i].code);
    LastErrorIsTheExample(group, at);
  }

  /** Behind its place in its group come only errors given after it, so with none of a kind among those, none there. */
  lemma {:induction false} LaterInGroup(errors: seq<ErrorClass>, i: nat, status: Status, kind: ErrorClass -> bool)
    requires i < |errors| && errors[i].status == status
    requires forall j :: i < j < |errors| && errors[j].status == status ==> !kind(errors[j])
    ensures var group, at := Group(errors, status), |Group(errors[..i], status)|;
            forall k :: at < k < |group| ==> !kind(group[k])
  {
    var front, last := errors[..|errors| - 1], errors[|errors| - 1];
    if i == |errors| - 1 {
      assert errors[..i] == front;
    } else {
      assert front[..i] == errors[..i];
      LaterInGroup(front, i, status, kind);
      GroupKeepsOrder(front, i, status);
    }
  }

  /** The validation's own example. */
  lemma ValidationExample(errors: seq<ErrorClass>)
    ensures var examples := EntryOf(Group(errors, 422), 422, true).examples;
            && "validation_error" in examples
            && examples["validation_error"] ==
               Example("validation_error", Envelope(false, "Field required",
                                                    [Detail("validation_error", "Field required", None)],
                                                    "3f1a9c2e7b8d4f5a9e0c1b2d3a4f5e6c"))
  {
  }

  // ---- numbers in words ----------------------------------------------------------------------------

  function Value(digits: string): nat
    requires forall i :: 0 <= i < |digits| ==> '0' <= digits[i] <= '9'
  {
    if digits == "" then 0
    else
      Value(digits[..|digits| - 1]) * 10 + (digits[|digits| - 1] as int - '0' as int)
  }

  /** The decimal numeral: digits only, no leading zero, and the number as its value. */
  lemma {:induction false} DecimalIsNumeral(n: nat)
    ensures Decimal(n) != "" && forall i :: 0 <= i < |Decimal(n)| ==> '0' <= Decimal(n)[i] <= '9'
    ensures Value(Decimal(n)) == n && (n > 0 ==> Decimal(n)[0] != '0')
  {
    var digit := ('0' as int + n % 10) as char;
    if n >= 10 {
      DecimalIsNumeral(n / 10);
      assert Decimal(n)[..|Decimal(n)| - 1] == Decimal(n / 10);
      assert Decimal(n)[|Decimal(n)| - 1] == digit;
    } else {
      assert Decimal(n) == [digit];
    }
  }

  /** How a header is described: `Retry-After` in its own words, any other by the status it comes with. */
  lemma HeadersDescribed(status: Status, name: string)
    ensures HeaderDescription("Retry-After", status) == "Seconds to wait before retrying the request."
    ensures name != "Retry-After" ==>
              HeaderDescription(name, status) == "Sent with every " + Decimal(status) + " response."
  {
  }

  lemma SameMembers(errors: seq<ErrorClass>, other: seq<ErrorClass>)
    requires multiset(errors) == multiset(other)
    ensures forall e :: e in errors <==> e in other
  {
    forall e
      ensures e in errors <==> e in other
    {
      assert e in multiset(errors) <==> e in multiset(other);
    }
  }

  lemma SameSets(errors: seq<ErrorClass>, other: seq<ErrorClass>, validation: bool, status: Status)
    requires forall e :: e in errors <==> e in other
    ensures Statuses(errors, validation) == Statuses(other, validation) && Codes(errors, status) == Codes(other, status)
  {
    assert (set e | e in errors :: e.status) == (set e | e in other :: e.status);
  }

  /** Neither the keys nor the example names depend on the order of the arguments. */
  lemma OrderDoesNotMatter(errors: seq<ErrorClass>, other: seq<ErrorClass>, validation: bool, status: Status)
    requires multiset(errors) == multiset(other)
    ensures Statuses(errors, validation) == Statuses(other, validation)
    ensures EntryOf(Group(errors, status), status, validation).examples.Keys ==
            EntryOf(Group(other, status), status, validation).examples.Keys
  {
    SameMembers(errors, other);
    SameSets(errors, other, validation, status);
    ExamplesAreTheStatusCodes(errors, status, validation);
    ExamplesAreTheStatusCodes(other, status, validation);
  }

  lemma LastIsGreatest(keys: seq<Status>)
    requires Increasing(keys) && keys != []
    ensures var last := keys[|keys| - 1];
            && (forall k :: k in keys ==> k <= last)
            && Elements(keys[..|keys| - 1]) == Elements(keys) - {last} && last in Elements(keys)
  {
    var front, last := keys[..|keys| - 1], keys[|keys| - 1];
    assert keys == front + [last];
    AppendGreater(front, last);
    assert last !in Elements(front);
  }

  lemma Emptiness(keys: seq<Status>)
    ensures keys == [] <==> Elements(keys) == {}
  {
    if keys != [] {
      assert keys[0] in Elements(keys);
    }
  }

  /** Increasing keys over the same statuses are the same keys, so the whole order is fixed. */
  lemma {:induction false} KeysAreDetermined(a: seq<Status>, b: seq<Status>)
    requires Increasing(a) && Increasing(b) && Elements(a) == Elements(b)
    ensures a == b
    decreases |a|
  {
    Emptiness(a);
    Emptiness(b);
    if a != [] {
      LastIsGreatest(a);
      LastIsGreatest(b);
      var x, y := a[|a| - 1], b[|b| - 1];
      assert x in Elements(b) && y in Elements(a);
      KeysAreDetermined(a[..|a| - 1], b[..|b| - 1]);
      assert a == a[..|a| - 1] + [x] && b == b[..|b| - 1] + [y];
    }
  }
}
