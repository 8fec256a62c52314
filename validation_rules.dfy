/**
 * Translation of a field's `ValidationRule` into the rule record of the
 * field-validation library, and the type guards on a flat configuration.
 */
module ValidationRules {
  import opened Wrappers
  import opened JsValues
  import opened FormTypes

  /** The keys the field-validation library understands; `KeyName` is the key as written in the record. */
  datatype RuleKey =
    | Required | MinValue | MaxValue | MinLength | MaxLength
    | Email | Url | Numeric | Alpha | AlphaNum | Regex

  function KeyName(k: RuleKey): string {
    match k
    case Required => "required"
    case MinValue => "min_value"
    case MaxValue => "max_value"
    case MinLength => "min"
    case MaxLength => "max"
    case Email => "email"
    case Url => "url"
    case Numeric => "numeric"
    case Alpha => "alpha"
    case AlphaNum => "alpha_num"
    case Regex => "regex"
  }

  /** What the translator returns: `undefined`, a rule record, or the custom expression itself. */
  datatype RuleExpression =
    | NoRules
    | RuleTable(rules: map<RuleKey, Value>)
    | Custom(expression: Value)

  /** `!!rules` as a caller tests it. */
  predicate IsTruthy(r: RuleExpression) {
    match r
    case NoRules => false
    case RuleTable(_) => true
    case Custom(e) => Truthy(e)
  }

  predicate HasCustom(v: ValidationRule) {
    v.custom.Some? && Truthy(v.custom.value)
  }

  function Flag(on: bool): Option<Value> {
    if on then Some(Bool(true)) else None
  }

  function Bound(n: Option<int>): Option<Value> {
    if n.Some? then Some(Num(n.value)) else None
  }

  /** The translation table read by output key: the entry the record holds under `key`, if any. */
  function TableEntry(v: ValidationRule, key: RuleKey): Option<Value> {
    match key
    case Required => Flag(IsSet(v.required))
    case MinValue => Bound(v.min)
    case MaxValue => Bound(v.max)
    case MinLength => Bound(v.minLength)
    case MaxLength => Bound(v.maxLength)
    case Email => Flag(IsSet(v.email))
    case Url => Flag(IsSet(v.url))
    case Numeric => Flag(IsSet(v.numeric))
    case Alpha => Flag(IsSet(v.alpha))
    case AlphaNum => Flag(IsSet(v.alphaNum))
    case Regex => if TruthyString(v.pattern) then Some(Str(v.pattern.value)) else None
  }

  /** The line of the translator that assigns `k`, counting its eleven assignments from 0. */
  function Line(k: RuleKey): (i: nat)
    ensures i < 11
  {
    match k
    case Required => 0
    case MinValue => 1
    case MaxValue => 2
    case MinLength => 3
    case MaxLength => 4
    case Email => 5
    case Url => 6
    case Numeric => 7
    case Alpha => 8
    case AlphaNum => 9
    case Regex => 10
  }

  /** The key the i-th assignment writes. */
  function KeyAt(i: nat): (k: RuleKey)
    requires i < 11
    ensures Line(k) == i
  {
    if i == 0 then Required
    else if i == 1 then MinValue
    else if i == 2 then MaxValue
    else if i == 3 then MinLength
    else if i == 4 then MaxLength
    else if i == 5 then Email
    else if i == 6 then Url
    else if i == 7 then Numeric
    else if i == 8 then Alpha
    else if i == 9 then AlphaNum
    else Regex
  }

  /** `if (entry) rules[key] = entry`: one conditional assignment. */
  function Put(m: map<RuleKey, Value>, key: RuleKey, entry: Option<Value>): map<RuleKey, Value> {
    if entry.Some? then m[key := entry.value] else m
  }

  /** The record after the translator's first n conditional assignments. */
  function RecordAfter(v: ValidationRule, n: nat): map<RuleKey, Value>
    requires n <= 11
  {
    if n == 0 then map[] else Put(RecordAfter(v, n - 1), KeyAt(n - 1), TableEntry(v, KeyAt(n - 1)))
  }

  /** After n assignments the record holds exactly the table's entries for the first n lines. */
  lemma {:induction false} RecordAfterAgrees(v: ValidationRule, n: nat)
    requires n <= 11
    ensures forall k :: k in RecordAfter(v, n) <==> Line(k) < n && TableEntry(v, k).Some?
    ensures forall k :: k in RecordAfter(v, n) ==> TableEntry(v, k) == Some(RecordAfter(v, n)[k])
  {
    if n > 0 {
      RecordAfterAgrees(v, n - 1);
      forall k ensures k == KeyAt(n - 1) <==> Line(k) == n - 1 {
        if Line(k) == n - 1 {
          assert k == KeyAt(Line(k)) by { KeyAtLine(k); }
        }
      }
    }
  }

  lemma KeyAtLine(k: RuleKey)
    ensures KeyAt(Line(k)) == k
  {
  }

  /**
   * `generateValidationRules`: absent rules give `undefined`; a truthy
   * `custom` is returned alone; otherwise every entry of the table whose
   * input field is set, and nothing else.
   */
  function GenerateValidationRules(validation: Option<ValidationRule>): (r: RuleExpression)
    ensures validation.None? <==> r == NoRules
    ensures validation.Some? && HasCustom(validation.value) ==> r == Custom(validation.value.custom.value)
    ensures validation.Some? && !HasCustom(validation.value) ==>
      && r.RuleTable?
      && (forall k :: k in r.rules <==> TableEntry(validation.value, k).Some?)
      && (forall k :: k in r.rules ==> TableEntry(validation.value, k) == Some(r.rules[k]))
  {
    if validation.None? then NoRules
    else if HasCustom(validation.value) then Custom(validation.value.custom.value)
    else
      RecordAfterAgrees(validation.value, 11);
      RuleTable(RecordAfter(validation.value, 11))
  }

  /**
   * The table spelled out: the bounds map whenever defined (0 included), the
   * flags only when true, a non-empty pattern is copied under `regex`.
   */
  lemma TranslationTable(v: ValidationRule)
    requires !HasCustom(v)
    ensures var rules := GenerateValidationRules(Some(v)).rules;
      && (Required in rules <==> v.required == Some(true))
      && (MinValue in rules <==> v.min.Some?) && (MinValue in rules ==> rules[MinValue] == Num(v.min.value))
      && (MaxValue in rules <==> v.max.Some?) && (MaxValue in rules ==> rules[MaxValue] == Num(v.max.value))
      && (MinLength in rules <==> v.minLength.Some?) && (MinLength in rules ==> rules[MinLength] == Num(v.minLength.value))
      && (MaxLength in rules <==> v.maxLength.Some?) && (MaxLength in rules ==> rules[MaxLength] == Num(v.maxLength.value))
      && (Email in rules <==> v.email == Some(true))
      && (Url in rules <==> v.url == Some(true))
      && (Numeric in rules <==> v.numeric == Some(true))
      && (Alpha in rules <==> v.alpha == Some(true))
      && (AlphaNum in rules <==> v.alphaNum == Some(true))
      && (forall k :: k in rules && k in {Required, Email, Url, Numeric, Alpha, AlphaNum} ==> rules[k] == Bool(true))
      && (Regex in rules <==> v.pattern.Some? && v.pattern.value != "")
      && (Regex in rules ==> rules[Regex] == Str(v.pattern.value))
  {
    var rules := GenerateValidationRules(Some(v)).rules;
    assert TableEntry(v, Required) == Flag(IsSet(v.required));
    assert TableEntry(v, Regex).Some? <==> TruthyString(v.pattern);
  }

  /** The record's keys as written are the library's eleven names; `message` is never one of them. */
  lemma KeyNamesAreTheLibrarys(k: RuleKey)
    ensures KeyName(k) in {"required", "min_value", "max_value", "min", "max", "email", "url", "numeric", "alpha", "alpha_num", "regex"}
    ensures KeyName(k) != "message"
  {
  }

  /** Distinct keys are written differently, so the record has one entry per key. */
  lemma KeyNameInjective(j: RuleKey, k: RuleKey)
    ensures KeyName(j) == KeyName(k) <==> j == k
  {
  }

  /** Whenever rules are given, the result is truthy: callers that branch on it keep them. */
  lemma GivenRulesAreTruthy(v: ValidationRule)
    ensures IsTruthy(GenerateValidationRules(Some(v)))
  {
  }

  /** An empty rule object gives an empty record, not `undefined`. */
  lemma EmptyRuleGivesEmptyRecord()
    ensures GenerateValidationRules(Some(NoValidation)) == RuleTable(map[])
  {
    var r := GenerateValidationRules(Some(NoValidation));
    forall k ensures k !in r.rules {
      assert TableEntry(NoValidation, k) == None;
    }
  }

  /** `{required: true, minLength: 3, email: true}` gives exactly `{required: true, min: 3, email: true}`. */
  lemma RequiredMinLengthEmailExample()
    ensures GenerateValidationRules(Some(NoValidation.(required := Some(true), minLength := Some(3), email := Some(true))))
         == RuleTable(map[Required := Bool(true), MinLength := Num(3), Email := Bool(true)])
  {
    var v := NoValidation.(required := Some(true), minLength := Some(3), email := Some(true));
    var r := GenerateValidationRules(Some(v));
    var expected := map[Required := Bool(true), MinLength := Num(3), Email := Bool(true)];
    forall k ensures (k in r.rules <==> k in expected) && (k in expected ==> r.rules[k] == expected[k]) {
      assert TableEntry(v, k).Some? <==> k in expected;
    }
  }

  /** The guards `isTextComponent` … `isSliderComponent`: the configuration's `type` is that literal. */
  predicate IsComponentOfKind(c: ComponentConfig, k: ComponentKind) {
    c.kind == k
  }

  /** Each guard holds exactly when the configuration carries that guard's `type` literal. */
  lemma GuardMatchesLiteral(c: ComponentConfig, k: ComponentKind)
    ensures IsComponentOfKind(c, k) <==> KindName(c.kind) == KindName(k)
  {
    KindNameInjective(c.kind, k);
  }
}
