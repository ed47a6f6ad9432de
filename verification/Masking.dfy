/** The two recursive maskers of the gateway: policy.SanitizeInput (internal/policy/policy.go:210-238),
    which the policy runs on a request's input, and executor.maskSensitive
    (internal/executor/executor.go:345-375), which the executor runs on what it logs and returns. */
module Masking {
  import opened Wrappers
  import opened Text

  /** A decoded JSON value.  Both maskers descend only into map[string]any, maskSensitive also into []any;
      every other Go type is a leaf. */
  datatype Value =
    | Map(fields: map<string, Value>)
    | List(items: seq<Value>)
    | Str(text: string)
    | Opaque(tag: int)

  const MASKED := Str("***")

  const MARKERS: seq<string> :=
    ["password", "token", "secret", "api_key", "apikey", "phone", "email", "id_card"]

  predicate IsSensitiveField(name: string) {
    exists i :: 0 <= i < |MARKERS| && Contains(Lower(name), MARKERS[i])
  }

  /** A name is sensitive exactly if it spells a marker somewhere, in any case of its letters. */
  lemma SensitiveIff(name: string)
    ensures IsSensitiveField(name) <==> exists k, i :: 0 <= k < |MARKERS| && SpelledAt(name, MARKERS[k], i)
  {
    forall k | 0 <= k < |MARKERS|
      ensures Contains(Lower(name), MARKERS[k]) <==> exists i :: SpelledAt(name, MARKERS[k], i)
    {
      ContainsIff(name, MARKERS[k]);
    }
  }

  /** Neither the case of its letters nor what stands around it hides a sensitive name. */
  lemma SensitiveInside(before: string, name: string, after: string, name': string)
    requires IsSensitiveField(name) && SameText(name', name)
    ensures IsSensitiveField(name') && IsSensitiveField(before + name' + after)
  {
    LowerIff(name', name);
    SensitiveIff(name');
    var whole := before + name' + after;
    var k, i :| 0 <= k < |MARKERS| && SpelledAt(name', MARKERS[k], i);
    assert whole[|before| + i..|before| + i + |MARKERS[k]|] == name'[i..i + |MARKERS[k]|];
    assert SpelledAt(whole, MARKERS[k], |before| + i);
    SensitiveIff(whole);
  }

  function MaskSensitive(v: Value, extra: seq<string>): Value {
    match v
    case Map(fields) =>
      Map(map k | k in fields :: if IsSensitiveField(k) || k in extra then MASKED else MaskSensitive(fields[k], extra))
    case List(items) =>
      List(seq(|items|, i requires 0 <= i < |items| => MaskSensitive(items[i], extra)))
    case _ => v
  }

  /** What SanitizeInput makes of a value: maps are copied recursively, anything else is kept. */
  function Sanitized(v: Value): Value {
    match v
    case Map(fields) =>
      Map(map k | k in fields :: if IsSensitiveField(k) then MASKED else Sanitized(fields[k]))
    case _ => v
  }

  /** The names SanitizeInput reports: the sensitive fields it meets on the way down. */
  predicate Reported(v: Value, name: string) {
    v.Map?
    && exists k :: k in v.fields
         && if IsSensitiveField(k) then k == name else Reported(v.fields[k], name)
  }

  method SanitizeInput(input: Value) returns (out: Value, masks: seq<string>)
    requires input.Map?
    ensures out == Sanitized(input)
    ensures forall name :: name in masks <==> Reported(input, name)
    decreases input
  {
    var fields := map[];
    masks := [];
    var todo := input.fields.Keys;
    while todo != {}
      invariant todo <= input.fields.Keys
      invariant fields.Keys == input.fields.Keys - todo
      invariant forall k :: k in fields ==> fields[k] == Sanitized(input).fields[k]
      invariant forall name :: name in masks <==>
        exists k :: k in fields && if IsSensitiveField(k) then k == name else Reported(input.fields[k], name)
      decreases |todo|
    {
      var k :| k in todo;
      todo := todo - {k};
      var v := input.fields[k];
      if IsSensitiveField(k) {
        fields := fields[k := MASKED];
        masks := masks + [k];
      } else if v.Map? {
        var nested, nestedMasks := SanitizeInput(v);
        fields := fields[k := nested];
        masks := masks + nestedMasks;
      } else {
        fields := fields[k := v];
      }
    }
    out := Map(fields);
  }

  // ---------- how the two agree ----------

  lemma {:induction false} ReportedIsSensitive(v: Value, name: string)
    requires Reported(v, name)
    ensures IsSensitiveField(name)
  {
    var k :| k in v.fields && if IsSensitiveField(k) then k == name else Reported(v.fields[k], name);
    if !IsSensitiveField(k) {
      ReportedIsSensitive(v.fields[k], name);
    }
  }

  lemma {:induction false} ExtraSensitiveIsNoExtra(v: Value, extra: seq<string>)
    requires forall name :: name in extra ==> IsSensitiveField(name)
    ensures MaskSensitive(v, extra) == MaskSensitive(v, [])
  {
    match v
    case Map(fields) =>
      forall k | k in fields ensures MaskSensitive(fields[k], extra) == MaskSensitive(fields[k], []) {
        ExtraSensitiveIsNoExtra(fields[k], extra);
      }
    case List(items) =>
      forall i | 0 <= i < |items| ensures MaskSensitive(items[i], extra) == MaskSensitive(items[i], []) {
        ExtraSensitiveIsNoExtra(items[i], extra);
      }
    case _ =>
  }

  /** The mask fields SanitizeInput reports never change what maskSensitive masks. */
  lemma ReportedMasksAddNothing(input: Value, masks: seq<string>, data: Value)
    requires forall name :: name in masks ==> Reported(input, name)
    ensures MaskSensitive(data, masks) == MaskSensitive(data, [])
  {
    forall name | name in masks ensures IsSensitiveField(name) {
      ReportedIsSensitive(input, name);
    }
    ExtraSensitiveIsNoExtra(data, masks);
  }

  lemma {:induction false} MaskIdempotent(v: Value, extra: seq<string>)
    ensures MaskSensitive(MaskSensitive(v, extra), extra) == MaskSensitive(v, extra)
  {
    match v
    case Map(fields) =>
      forall k | k in fields
        ensures MaskSensitive(MaskSensitive(fields[k], extra), extra) == MaskSensitive(fields[k], extra)
      {
        MaskIdempotent(fields[k], extra);
      }
    case List(items) =>
      forall i | 0 <= i < |items|
        ensures MaskSensitive(MaskSensitive(items[i], extra), extra) == MaskSensitive(items[i], extra)
      {
        MaskIdempotent(items[i], extra);
      }
    case _ =>
  }

  /** Masking a sanitized input is masking the input. */
  lemma {:induction false} MaskAbsorbsSanitize(v: Value, extra: seq<string>)
    ensures MaskSensitive(Sanitized(v), extra) == MaskSensitive(v, extra)
  {
    if v.Map? {
      forall k | k in v.fields
        ensures MaskSensitive(Sanitized(v.fields[k]), extra) == MaskSensitive(v.fields[k], extra)
      {
        MaskAbsorbsSanitize(v.fields[k], extra);
      }
    }
  }

  /** Something under `v` that maskSensitive would change. */
  predicate Exposed(v: Value) {
    match v
    case Map(fields) =>
      exists k :: k in fields && if IsSensitiveField(k) then fields[k] != MASKED else Exposed(fields[k])
    case List(items) =>
      exists i :: 0 <= i < |items| && Exposed(items[i])
    case _ => false
  }

  /** A list, reached without passing a sensitive field, that holds such a thing. */
  predicate ExposedInList(v: Value) {
    match v
    case Map(fields) =>
      exists k :: k in fields && !IsSensitiveField(k) && ExposedInList(fields[k])
    case List(_) => Exposed(v)
    case _ => false
  }

  lemma {:induction false} MaskFixedIff(v: Value)
    ensures MaskSensitive(v, []) == v <==> !Exposed(v)
  {
    match v
    case Map(fields) =>
      var out := MaskSensitive(v, []).fields;
      forall k | k in fields
        ensures out[k] == fields[k] <==> !(if IsSensitiveField(k) then fields[k] != MASKED else Exposed(fields[k]))
      {
        MaskFixedIff(fields[k]);
      }
      assert out == fields <==> forall k :: k in fields ==> out[k] == fields[k];
    case List(items) =>
      var out := MaskSensitive(v, []).items;
      forall i | 0 <= i < |items| ensures out[i] == items[i] <==> !Exposed(items[i]) {
        MaskFixedIff(items[i]);
      }
      assert out == items <==> forall i :: 0 <= i < |items| ==> out[i] == items[i];
    case _ =>
  }

  /** The two maskers give the same result exactly on the inputs without unmasked sensitive fields under a
      list: SanitizeInput copies lists as they are. */
  lemma {:induction false} MaskersAgreeIff(v: Value)
    ensures Sanitized(v) == MaskSensitive(v, []) <==> !ExposedInList(v)
  {
    match v
    case Map(fields) =>
      var out := MaskSensitive(v, []).fields;
      var san := Sanitized(v).fields;
      forall k | k in fields
        ensures san[k] == out[k] <==> !(!IsSensitiveField(k) && ExposedInList(fields[k]))
      {
        MaskersAgreeIff(fields[k]);
      }
      assert out == san <==> forall k :: k in fields ==> out[k] == san[k];
    case List(_) => MaskFixedIff(v);
    case _ =>
  }

  /** What maskSensitive returns holds nothing unmasked; what SanitizeInput returns does exactly where the
      two differ. */
  lemma ExposedAfter(v: Value)
    ensures !Exposed(MaskSensitive(v, []))
    ensures Exposed(Sanitized(v)) <==> ExposedInList(v)
  {
    MaskIdempotent(v, []);
    MaskFixedIff(MaskSensitive(v, []));
    MaskAbsorbsSanitize(v, []);
    MaskFixedIff(Sanitized(v));
    MaskersAgreeIff(v);
  }

  /** They do disagree: a password in a map in a list. */
  lemma MaskersDisagree()
    ensures var v := Map(map["rows" := List([Map(map["password" := Str("x")])])]);
      Sanitized(v) == v && MaskSensitive(v, []) != v
  {
    var row := Map(map["password" := Str("x")]);
    var v := Map(map["rows" := List([row])]);
    assert IsSensitiveField("password") by {
      assert Lower("password") == "password";
      assert OccursAt(Lower("password"), MARKERS[0], 0);
    }
    assert "password" in row.fields && row.fields["password"] != MASKED;
    assert Exposed(List([row])) by { assert [row][0] == row; }
    NotSensitive("rows");
    assert Exposed(v);
    MaskFixedIff(v);
    assert Sanitized(v).fields["rows"] == List([row]);
    assert Sanitized(v).fields == v.fields;
  }

  // ---------- where the mask is ----------

  datatype Step = Field(name: string) | Index(index: nat)

  /** The value at a path into nested maps and lists. */
  function At(v: Value, path: seq<Step>): Option<Value>
    decreases |path|
  {
    if path == [] then Some(v)
    else
      match path[0]
      case Field(name) => if v.Map? && name in v.fields then At(v.fields[name], path[1..]) else None
      case Index(i) => if v.List? && i < |v.items| then At(v.items[i], path[1..]) else None
  }

  /** The number of steps before the path's first masked field. */
  function ClearSteps(path: seq<Step>, extra: seq<string>): (n: nat)
    ensures n <= |path| && forall k :: 0 <= k < n ==> !Masks(path[k], extra)
    ensures n < |path| ==> Masks(path[n], extra)
  {
    if path == [] || Masks(path[0], extra) then 0 else 1 + ClearSteps(path[1..], extra)
  }

  /** The step leads into a field that is sensitive, or is named by the request. */
  predicate Masks(step: Step, extra: seq<string>) {
    step.Field? && (IsSensitiveField(step.name) || step.name in extra)
  }

  /** maskSensitive at every path: where no field on the path is masked, the path leads to the same place
      (so key sets and list lengths are kept); the first masked field that exists holds "***", and nothing
      lies below it. */
  lemma {:induction false} MaskedAt(v: Value, extra: seq<string>, path: seq<Step>)
    ensures var n := ClearSteps(path, extra);
      At(MaskSensitive(v, extra), path)
      == if n == |path| then
           (match At(v, path) case Some(x) => Some(MaskSensitive(x, extra)) case None => None)
         else if n + 1 == |path| && At(v, path).Some? then Some(Str("***"))
         else None
    decreases |path|
  {
    if path != [] {
      match path[0]
      case Field(name) =>
        if v.Map? && name in v.fields {
          if Masks(path[0], extra) {
            assert MaskSensitive(v, extra).fields[name] == MASKED;
          } else {
            MaskedAt(v.fields[name], extra, path[1..]);
          }
        }
      case Index(i) =>
        if v.List? && i < |v.items| {
          MaskedAt(v.items[i], extra, path[1..]);
        }
    }
  }

  // ---------- the text the policy checks is the text the tool gets ----------

  lemma NotSensitive(name: string)
    requires |name| < 5
    ensures !IsSensitiveField(name)
  {
    forall i | 0 <= i < |MARKERS| ensures !Contains(Lower(name), MARKERS[i]) {}
  }

  /** Outside maps, a field that is not sensitive reaches the tool as it came; "sql" is one. */
  lemma SanitizeKeepsField(input: Value, name: string)
    requires input.Map? && name in input.fields && !input.fields[name].Map? && !IsSensitiveField(name)
    ensures Sanitized(input).fields[name] == input.fields[name]
  {}
}
