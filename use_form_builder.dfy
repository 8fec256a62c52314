/**
 * The composable builder: components in the nested `{ settings, props }`
 * shape, kept in a map keyed by their name, with a richer validation than
 * the class-based builder, a best-effort schema loader, and the values and
 * styles the form renderer reads.
 */
module UseFormBuilder {
  import opened Wrappers
  import opened JsValues
  import opened Text
  import opened GridLines
  import opened FormTypes
  import opened ComponentNames
  import opened ValidationRules
  import opened OrderedMaps
  import FormBuilderUtils
  import Classes

  // ------------------------------------------------------------ components

  /** What the renderer needs to place and validate one field. */
  datatype ComponentSettings = ComponentSettings(
    name: Option<string>,
    labelText: Option<string>,
    kind: ComponentKind,
    validation: Option<ValidationRule>,
    grid: Option<GridLayout>,
    initialValue: Value)

  /** One component: its settings and the widget's own props, passed through unread except `items`. */
  datatype NestedComponent = NestedComponent(settings: ComponentSettings, props: Option<map<string, Value>>)

  const LabelRequired := "Component label is required"

  function OptionsMissing(k: ComponentKind): string {
    KindName(k) + " component must have options"
  }

  /** `component.props?.items?.length` is truthy: a non-empty list (or string) of options. */
  predicate HasOptions(c: NestedComponent) {
    && c.props.Some?
    && "items" in c.props.value
    && var n := LengthOf(c.props.value["items"]); n.Some? && n.value > 0
  }

  predicate NeedsOptions(k: ComponentKind) {
    k == Select || k == Radio
  }

  /** What `validateComponent` accepts: a well-formed name, a label, and options where the kind needs them. */
  predicate IsValidComponent(c: NestedComponent) {
    && c.settings.name.Some? && IsValidName(c.settings.name.value)
    && TruthyString(c.settings.labelText)
    && (NeedsOptions(c.settings.kind) ==> HasOptions(c))
  }

  /**
   * `validateComponent`: reports every problem at once, in this order: a
   * missing name, or else a name outside the name pattern; a missing label;
   * a select or radio without options. Valid exactly when nothing is
   * reported.
   */
  function ValidateComponent(c: NestedComponent): (r: ValidationResult)
    ensures r.valid <==> r.errors == []
    ensures r.valid <==> IsValidComponent(c)
    ensures |r.errors| <= 3
  {
    var s := c.settings;
    var nameErrors :=
      if !TruthyString(s.name) then [NameRequired]
      else if !IsValidName(s.name.value) then [NameFormat]
      else [];
    var labelErrors := if !TruthyString(s.labelText) then [LabelRequired] else [];
    var optionErrors := if NeedsOptions(s.kind) && !HasOptions(c) then [OptionsMissing(s.kind)] else [];
    var errors := nameErrors + labelErrors + optionErrors;
    ValidationResult(|errors| == 0, errors)
  }

  /** Each problem is reported exactly when it is present, so several can be reported at once. */
  lemma ValidateComponentReports(c: NestedComponent)
    ensures NameRequired in ValidateComponent(c).errors <==> !TruthyString(c.settings.name)
    ensures NameFormat in ValidateComponent(c).errors <==> TruthyString(c.settings.name) && !IsValidName(c.settings.name.value)
    ensures LabelRequired in ValidateComponent(c).errors <==> !TruthyString(c.settings.labelText)
    ensures OptionsMissing(c.settings.kind) in ValidateComponent(c).errors <==> NeedsOptions(c.settings.kind) && !HasOptions(c)
  {
    MessagesDiffer(c.settings.kind);
  }

  /** The four messages are different strings: they differ in length. */
  lemma MessagesDiffer(k: ComponentKind)
    ensures NameRequired != NameFormat && NameRequired != LabelRequired && NameFormat != LabelRequired
    ensures OptionsMissing(k) != NameRequired && OptionsMissing(k) != NameFormat && OptionsMissing(k) != LabelRequired
  {
    assert |NameRequired| == 26 && |LabelRequired| == 27 && |NameFormat| > 40;
    assert 4 <= |KindName(k)| <= 8;
    assert |OptionsMissing(k)| == |KindName(k)| + 28;
  }

  /**
   * Both builders judge a name alike: the name errors here are exactly
   * those `FormComponent.validate` reports for a flat component of that name.
   */
  lemma NameChecksAgree(c: NestedComponent, flat: ComponentConfig)
    requires flat.name == c.settings.name
    ensures NameRequired in ValidateComponent(c).errors <==> NameRequired in Classes.ValidateConfig(flat).errors
    ensures NameFormat in ValidateComponent(c).errors <==> NameFormat in Classes.ValidateConfig(flat).errors
    ensures IsValidComponent(c) ==> Classes.ValidateConfig(flat).valid
  {
    ValidateComponentReports(c);
  }

  // ------------------------------------------------------------ the table

  /** The message of the error `addComponent` throws for invalid components. */
  function ValidationMessage(errors: seq<string>): string {
    "Component validation failed:\n" + Join(errors, "\n")
  }

  function DuplicateMessage(name: string): string {
    "Component with name \"" + name + "\" already exists"
  }

  /** Every stored component is valid and stored under its own name. */
  ghost predicate Keyed(m: OrderedMap<NestedComponent>) {
    && m.Valid()
    && forall k :: k in m.table ==> m.table[k].settings.name == Some(k) && IsValidComponent(m.table[k])
  }

  /**
   * `addComponent` on the table: an invalid component fails with its
   * errors, a name already present fails as a duplicate; otherwise the
   * component goes last under its name.
   */
  function TryInsert(m: OrderedMap<NestedComponent>, c: NestedComponent): (r: Result<OrderedMap<NestedComponent>, string>)
    requires m.Valid()
    ensures r.Success? <==> IsValidComponent(c) && c.settings.name.value !in m.table
    ensures !IsValidComponent(c) ==> r == Failure(ValidationMessage(ValidateComponent(c).errors))
    ensures IsValidComponent(c) && c.settings.name.value in m.table ==> r == Failure(DuplicateMessage(c.settings.name.value))
    ensures r.Success? ==> r.value.keys == m.keys + [c.settings.name.value] && r.value.Get(c.settings.name.value) == Some(c)
    ensures r.Success? ==> forall k :: k != c.settings.name.value ==> r.value.Get(k) == m.Get(k)
    ensures r.Success? && Keyed(m) ==> Keyed(r.value)
  {
    var validation := ValidateComponent(c);
    if !validation.valid then Failure(ValidationMessage(validation.errors))
    else
      var name := c.settings.name.value;
      if name in m.table then Failure(DuplicateMessage(name))
      else
        var r := m.Set(name, c);
        assert Keyed(m) ==> Keyed(r) by {
          if Keyed(m) {
            forall k | k in r.table
              ensures r.table[k].settings.name == Some(k) && IsValidComponent(r.table[k])
            {
              assert r.Get(k).Some?;
            }
          }
        }
        Success(r)
  }

  // -------------------------------------------------------------- settings

  /** The keys the settings hold as typed fields. */
  const SettingsKeys: set<string> :=
    {"gridColumns", "gap", "validateOnBlur", "validateOnChange", "validateOnMount", "validateOnInput"}

  /** Further settings (buttons and the like), carried along unread. */
  type OtherSettings = m: map<string, Value> | m.Keys !! SettingsKeys witness map[]

  datatype FormSettings = FormSettings(
    gridColumns: int,
    gap: string,
    validateOnBlur: bool,
    validateOnChange: bool,
    validateOnMount: bool,
    validateOnInput: bool,
    others: OtherSettings)

  const DefaultSettings := FormSettings(12, "1rem", true, true, false, false, map[])

  /** `parsed.settings`: the keys a schema sets. */
  datatype SettingsPatch = SettingsPatch(
    gridColumns: Option<int>,
    gap: Option<string>,
    validateOnBlur: Option<bool>,
    validateOnChange: Option<bool>,
    validateOnMount: Option<bool>,
    validateOnInput: Option<bool>,
    others: OtherSettings)

  /** `{ ...defaultSettings, ...parsed.settings }`: every key the schema sets wins, even 0 or "". */
  function Overlay(p: Option<SettingsPatch>): (s: FormSettings)
    ensures p.None? ==> s == DefaultSettings
    ensures p.Some? ==> s.others == p.value.others
    ensures p.Some? && p.value.gridColumns.Some? ==> s.gridColumns == p.value.gridColumns.value
    ensures p.Some? && p.value.gridColumns.None? ==> s.gridColumns == DefaultSettings.gridColumns
    ensures p.Some? && p.value.gap.Some? ==> s.gap == p.value.gap.value
    ensures p.Some? && p.value.gap.None? ==> s.gap == DefaultSettings.gap
    ensures p.Some? && p.value.validateOnBlur.Some? ==> s.validateOnBlur == p.value.validateOnBlur.value
    ensures p.Some? && p.value.validateOnBlur.None? ==> s.validateOnBlur == DefaultSettings.validateOnBlur
    ensures p.Some? && p.value.validateOnChange.Some? ==> s.validateOnChange == p.value.validateOnChange.value
    ensures p.Some? && p.value.validateOnChange.None? ==> s.validateOnChange == DefaultSettings.validateOnChange
    ensures p.Some? && p.value.validateOnMount.Some? ==> s.validateOnMount == p.value.validateOnMount.value
    ensures p.Some? && p.value.validateOnMount.None? ==> s.validateOnMount == DefaultSettings.validateOnMount
    ensures p.Some? && p.value.validateOnInput.Some? ==> s.validateOnInput == p.value.validateOnInput.value
    ensures p.Some? && p.value.validateOnInput.None? ==> s.validateOnInput == DefaultSettings.validateOnInput
  {
    match p
    case None => DefaultSettings
    case Some(q) =>
      FormSettings(
        q.gridColumns.GetOr(DefaultSettings.gridColumns),
        q.gap.GetOr(DefaultSettings.gap),
        q.validateOnBlur.GetOr(DefaultSettings.validateOnBlur),
        q.validateOnChange.GetOr(DefaultSettings.validateOnChange),
        q.validateOnMount.GetOr(DefaultSettings.validateOnMount),
        q.validateOnInput.GetOr(DefaultSettings.validateOnInput),
        DefaultSettings.others + q.others)
  }

  /** The settings written out in full. */
  function AsSettingsPatch(s: FormSettings): SettingsPatch {
    SettingsPatch(
      Some(s.gridColumns), Some(s.gap), Some(s.validateOnBlur), Some(s.validateOnChange),
      Some(s.validateOnMount), Some(s.validateOnInput), s.others)
  }

  /** Loading written-out settings gives them back; an empty settings object gives the defaults. */
  lemma SettingsRoundTrip(s: FormSettings)
    ensures Overlay(Some(AsSettingsPatch(s))) == s
    ensures Overlay(Some(SettingsPatch(None, None, None, None, None, None, map[]))) == DefaultSettings
  {
  }

  // ------------------------------------------------------ loading a schema

  /** An element of `parsed.components`: a component, or a value whose `settings` cannot be read. */
  datatype ParsedEntry = Entry(component: NestedComponent) | Malformed

  /** `parsed.components`: absent, a list, or a value without `forEach`. */
  datatype ComponentList = NoList | Items(entries: seq<ParsedEntry>) | NotIterable(message: string)

  datatype ParsedSchema = ParsedSchema(settings: Option<SettingsPatch>, components: ComponentList)

  /**
   * What `JSON.parse` makes of the schema text: a syntax error, the
   * document `null` (whose `settings` cannot be read), or a document.
   */
  datatype JsonDocument =
    | SyntaxError(message: string)
    | NullDocument(message: string)
    | Document(schema: ParsedSchema)

  /** `Component ${index}: ${message}`. */
  function ComponentError(index: nat, message: string): string {
    "Component " + NatToString(index) + ": " + message
  }

  function FailureSummary(errors: seq<string>): string {
    "Form validation failed:\n" + Join(errors, "\n")
  }

  /** The table and the recorded errors after loading some entries into an empty table. */
  datatype Loaded = Loaded(table: OrderedMap<NestedComponent>, errors: seq<string>)

  /**
   * The first n steps of the loader's `forEach`: a component is added, or
   * its error recorded with its index; a malformed entry is skipped without
   * a record.
   */
  function Load(entries: seq<ParsedEntry>, n: nat): (l: Loaded)
    requires n <= |entries|
    ensures Keyed(l.table)
  {
    if n == 0 then Loaded(OrderedMap.Empty(), [])
    else
      var before := Load(entries, n - 1);
      match entries[n - 1]
      case Malformed => before
      case Entry(c) =>
        match TryInsert(before.table, c)
        case Success(t) => Loaded(t, before.errors)
        case Failure(msg) => Loaded(before.table, before.errors + [ComponentError(n - 1, msg)])
  }

  /** An entry the loader keeps if its name is still free. */
  predicate ValidEntry(e: ParsedEntry) {
    e.Entry? && IsValidComponent(e.component)
  }

  /** The names of the valid entries among the first n. */
  ghost function NamesBefore(entries: seq<ParsedEntry>, n: nat): set<string>
    requires n <= |entries|
  {
    set i | 0 <= i < n && ValidEntry(entries[i]) :: entries[i].component.settings.name.value
  }

  /** The stored names are exactly the names of the valid entries. */
  lemma {:induction false} LoadNames(entries: seq<ParsedEntry>, n: nat)
    requires n <= |entries|
    ensures Load(entries, n).table.table.Keys == NamesBefore(entries, n)
  {
    if n > 0 {
      LoadNames(entries, n - 1);
      var e := entries[n - 1];
      assert NamesBefore(entries, n) ==
        NamesBefore(entries, n - 1) + (if ValidEntry(e) then {e.component.settings.name.value} else {});
    }
  }

  /**
   * Every well-formed entry is either stored or reported: the stored
   * components and the recorded errors together number the entries that
   * are not malformed.
   */
  lemma {:induction false} LoadAccountsForEveryEntry(entries: seq<ParsedEntry>, n: nat)
    requires n <= |entries|
    ensures |Load(entries, n).table.keys| + |Load(entries, n).errors| == |set i | 0 <= i < n && entries[i].Entry?|
  {
    if n > 0 {
      LoadAccountsForEveryEntry(entries, n - 1);
      var e := entries[n - 1];
      assert (set i | 0 <= i < n && entries[i].Entry?) ==
        (set i | 0 <= i < n - 1 && entries[i].Entry?) + (if e.Entry? then {n - 1} else {});
    }
  }

  /**
   * The first valid entry under each name is the one stored: a later entry
   * with that name is reported as a duplicate and leaves it in place.
   */
  lemma {:induction false} LoadKeepsFirst(entries: seq<ParsedEntry>, n: nat, i: nat)
    requires i < n <= |entries|
    requires ValidEntry(entries[i]) && entries[i].component.settings.name.value !in NamesBefore(entries, i)
    ensures Load(entries, n).table.Get(entries[i].component.settings.name.value) == Some(entries[i].component)
  {
    var name := entries[i].component.settings.name.value;
    if n == i + 1 {
      LoadNames(entries, i);
    } else {
      LoadKeepsFirst(entries, n - 1, i);
      LoadNames(entries, n - 1);
    }
  }

  /**
   * Loading records no error exactly when every well-formed entry is valid
   * and carries a name no earlier valid entry has.
   */
  lemma {:induction false} LoadCleanIff(entries: seq<ParsedEntry>, n: nat)
    requires n <= |entries|
    ensures Load(entries, n).errors == [] <==>
      forall i :: 0 <= i < n && entries[i].Entry? ==>
        ValidEntry(entries[i]) && entries[i].component.settings.name.value !in NamesBefore(entries, i)
  {
    if n > 0 {
      LoadCleanIff(entries, n - 1);
      LoadNames(entries, n - 1);
    }
  }

  // ------------------------------------------------------ derived records

  /**
   * The fold both computed records use: each component, in order, may
   * write one value under its name (`undefined` when it has none).
   */
  function Collect<T>(vs: seq<NestedComponent>, f: NestedComponent -> Option<T>): map<string, T> {
    if vs == [] then map[]
    else
      var acc := Collect(vs[..|vs| - 1], f);
      var c := vs[|vs| - 1];
      if f(c).Some? then acc[c.settings.name.GetOr("undefined") := f(c).value] else acc
  }

  /** The components' names are all present and all different. */
  predicate DistinctNames(vs: seq<NestedComponent>) {
    && (forall i :: 0 <= i < |vs| ==> vs[i].settings.name.Some?)
    && (forall i, j :: 0 <= i < j < |vs| ==> vs[i].settings.name != vs[j].settings.name)
  }

  /** With distinct names, the fold holds exactly one entry per component that writes one. */
  lemma {:induction false} CollectByName<T>(vs: seq<NestedComponent>, f: NestedComponent -> Option<T>)
    requires DistinctNames(vs)
    ensures forall i :: 0 <= i < |vs| ==>
      (vs[i].settings.name.value in Collect(vs, f) <==> f(vs[i]).Some?)
      && (f(vs[i]).Some? ==> Collect(vs, f)[vs[i].settings.name.value] == f(vs[i]).value)
    ensures forall k :: k in Collect(vs, f) ==> exists i :: 0 <= i < |vs| && vs[i].settings.name == Some(k)
  {
    if vs != [] {
      var init := vs[..|vs| - 1];
      assert DistinctNames(init);
      CollectByName(init, f);
      forall i | 0 <= i < |init| ensures init[i] == vs[i] {}
    }
  }

  /** The values in a keyed table have distinct names, their keys. */
  lemma KeyedNamesDistinct(m: OrderedMap<NestedComponent>)
    requires Keyed(m)
    ensures DistinctNames(m.Values())
    ensures forall i :: 0 <= i < |m.keys| ==> m.Values()[i].settings.name == Some(m.keys[i])
  {
  }

  function InitialValueOf(c: NestedComponent): Option<Value> {
    if c.settings.initialValue != Undefined then Some(c.settings.initialValue) else None
  }

  /** The rules a component contributes to the schema: its translated rules when they are truthy. */
  function RulesOf(c: NestedComponent): Option<RuleExpression> {
    if c.settings.validation.Some? then
      var rules := GenerateValidationRules(c.settings.validation);
      if IsTruthy(rules) then Some(rules) else None
    else None
  }

  /** `initialValues` of a keyed table: name to initial value, for exactly the components that define one. */
  lemma InitialValuesOfKeyed(m: OrderedMap<NestedComponent>)
    requires Keyed(m)
    ensures forall k :: k in Collect(m.Values(), InitialValueOf) <==>
      k in m.table && m.table[k].settings.initialValue != Undefined
    ensures forall k :: k in Collect(m.Values(), InitialValueOf) ==>
      Collect(m.Values(), InitialValueOf)[k] == m.table[k].settings.initialValue
  {
    KeyedNamesDistinct(m);
    CollectByName(m.Values(), InitialValueOf);
    forall k | k in m.table ensures exists i :: 0 <= i < |m.keys| && m.keys[i] == k {
      assert k in m.keys;
    }
  }

  /**
   * `validationSchema` of a keyed table: name to translated rules, for
   * exactly the components that have a validation object (their rules are
   * never falsy).
   */
  lemma ValidationSchemaOfKeyed(m: OrderedMap<NestedComponent>)
    requires Keyed(m)
    ensures forall k :: k in Collect(m.Values(), RulesOf) <==>
      k in m.table && m.table[k].settings.validation.Some?
    ensures forall k :: k in Collect(m.Values(), RulesOf) ==>
      Collect(m.Values(), RulesOf)[k] == GenerateValidationRules(m.table[k].settings.validation)
  {
    KeyedNamesDistinct(m);
    CollectByName(m.Values(), RulesOf);
    forall k | k in m.table ensures exists i :: 0 <= i < |m.keys| && m.keys[i] == k {
      assert k in m.keys;
    }
    forall k | k in m.table && m.table[k].settings.validation.Some?
      ensures RulesOf(m.table[k]).Some?
    {
      GivenRulesAreTruthy(m.table[k].settings.validation.value);
    }
  }

  // ------------------------------------------------------------- rendering

  /** `getComponentProps`: `name` first, then the props (which may replace it), then `label` for checkboxes and switches. */
  function GetComponentProps(c: NestedComponent): (r: map<string, Value>)
    ensures r.Keys == {"name"} + c.props.GetOr(map[]).Keys + (if c.settings.kind in {Checkbox, Switch} then {"label"} else {})
    ensures c.settings.kind in {Checkbox, Switch} ==> r["label"] == OfString(c.settings.labelText)
    ensures forall k :: k in c.props.GetOr(map[]) && !(k == "label" && c.settings.kind in {Checkbox, Switch}) ==>
      r[k] == c.props.GetOr(map[])[k]
    ensures "name" !in c.props.GetOr(map[]) ==> r["name"] == OfString(c.settings.name)
  {
    var props := c.props.GetOr(map[]);
    var labelled := if c.settings.kind == Checkbox || c.settings.kind == Switch then map["label" := OfString(c.settings.labelText)] else map[];
    map["name" := OfString(c.settings.name)] + props + labelled
  }

  /** `getFormGridStyle`: the track list and the gap. */
  datatype FormGridStyle = FormGridStyle(gridTemplateColumns: string, gap: string)

  // ------------------------------------------------------------ the state

  /** The composable's state: the form settings, the components by name, and the last load's errors. */
  class FormBuilderState {
    var formSettings: FormSettings
    var components: OrderedMap<NestedComponent>
    var parseError: Option<string>
    var validationErrors: seq<string>

    ghost predicate Valid()
      reads this
    {
      Keyed(components)
    }

    constructor()
      ensures Valid()
      ensures formSettings == DefaultSettings && components == OrderedMap.Empty()
      ensures parseError.None? && validationErrors == []
    {
      formSettings := DefaultSettings;
      components := OrderedMap.Empty();
      parseError := None;
      validationErrors := [];
    }

    /** `addComponent`: stores a valid component under its free name, or returns the message it throws. */
    method AddComponent(c: NestedComponent) returns (error: Option<string>)
      requires Valid()
      modifies this
      ensures Valid()
      ensures TryInsert(old(components), c) == if error.None? then Success(components) else Failure(error.value)
      ensures error.Some? ==> components == old(components)
      ensures formSettings == old(formSettings) && parseError == old(parseError) && validationErrors == old(validationErrors)
    {
      var validation := ValidateComponent(c);
      if !validation.valid {
        return Some(ValidationMessage(validation.errors));
      }
      var name := c.settings.name.value;
      if name in components.table {
        return Some(DuplicateMessage(name));
      }
      components := components.Set(name, c);
      return None;
    }

    /**
     * `parseSchema`: an empty schema resets everything; a syntax error only
     * records its message; otherwise the table is cleared, the settings
     * reloaded, and the components added best-effort, the result telling
     * whether every one of them made it.
     */
    method ParseSchema(schema: Option<string>, document: JsonDocument) returns (ok: bool)
      requires Valid()
      modifies this
      ensures Valid()
      ensures !TruthyString(schema) ==>
        && ok && formSettings == DefaultSettings && components == OrderedMap.Empty()
        && parseError.None? && validationErrors == []
      ensures TruthyString(schema) && document.SyntaxError? ==>
        && !ok && parseError == Some(document.message)
        && formSettings == old(formSettings) && components == old(components) && validationErrors == old(validationErrors)
      ensures TruthyString(schema) && document.NullDocument? ==>
        && !ok && parseError == Some(document.message)
        && formSettings == old(formSettings) && components == OrderedMap.Empty() && validationErrors == []
      ensures TruthyString(schema) && document.Document? ==>
        formSettings == Overlay(document.schema.settings)
      ensures TruthyString(schema) && document.Document? && document.schema.components.NotIterable? ==>
        && !ok && parseError == Some(document.schema.components.message)
        && components == OrderedMap.Empty() && validationErrors == []
      ensures TruthyString(schema) && document.Document? && document.schema.components.NoList? ==>
        && ok && parseError.None? && components == OrderedMap.Empty() && validationErrors == []
      ensures TruthyString(schema) && document.Document? && document.schema.components.Items? ==>
        var loaded := Load(document.schema.components.entries, |document.schema.components.entries|);
        && components == loaded.table
        && (ok <==> loaded.errors == [])
        && (ok ==> parseError.None? && validationErrors == [])
        && (!ok ==> parseError == Some(FailureSummary(loaded.errors)) && validationErrors == loaded.errors)
    {
      if !TruthyString(schema) {
        components := OrderedMap.Empty();
        formSettings := DefaultSettings;
        parseError := None;
        validationErrors := [];
        return true;
      }
      match document
      case SyntaxError(message) =>
        parseError := Some(message);
        return false;
      case NullDocument(message) =>
        components := OrderedMap.Empty();
        validationErrors := [];
        parseError := Some(message);
        return false;
      case Document(parsed) =>
        components := OrderedMap.Empty();
        validationErrors := [];
        formSettings := Overlay(parsed.settings);
        var componentErrors: seq<string> := [];
        match parsed.components {
          case NotIterable(message) =>
            parseError := Some(message);
            return false;
          case NoList =>
          case Items(entries) =>
            var i := 0;
            while i < |entries|
              invariant 0 <= i <= |entries|
              invariant Valid() && formSettings == Overlay(parsed.settings) && validationErrors == []
              invariant Load(entries, i) == Loaded(components, componentErrors)
            {
              match entries[i] {
                case Malformed =>
                case Entry(c) =>
                  var error := AddComponent(c);
                  if error.Some? {
                    componentErrors := componentErrors + [ComponentError(i, error.value)];
                  }
              }
              i := i + 1;
            }
        }
        if |componentErrors| > 0 {
          validationErrors := componentErrors;
          parseError := Some(FailureSummary(componentErrors));
          return false;
        }
        parseError := None;
        return true;
    }

    /** `initialValues`: name to initial value for the components that define one. */
    function InitialValues(): (values: map<string, Value>)
      reads this
      requires Valid()
      ensures forall k :: k in values <==> k in components.table && components.table[k].settings.initialValue != Undefined
      ensures forall k :: k in values ==> values[k] == components.table[k].settings.initialValue
    {
      InitialValuesOfKeyed(components);
      Collect(components.Values(), InitialValueOf)
    }

    /** `validationSchema`: name to rules for the components that have a validation object. */
    function ValidationSchema(): (schema: map<string, RuleExpression>)
      reads this
      requires Valid()
      ensures forall k :: k in schema <==> k in components.table && components.table[k].settings.validation.Some?
      ensures forall k :: k in schema ==> schema[k] == GenerateValidationRules(components.table[k].settings.validation)
    {
      ValidationSchemaOfKeyed(components);
      Collect(components.Values(), RulesOf)
    }

    /** `getFormGridStyle`: as many equal tracks as the column count (given, or the settings'), and the gap. */
    function GetFormGridStyle(gridColumns: Option<int>): (style: FormGridStyle)
      reads this
      ensures ParseRepeat(style.gridTemplateColumns) == Some(NumberOr(gridColumns, formSettings.gridColumns))
      ensures style.gap == if formSettings.gap != "" then formSettings.gap else "1rem"
    {
      var cols := NumberOr(gridColumns, formSettings.gridColumns);
      ParseRepeatTemplate(cols);
      FormGridStyle(RepeatTemplate(cols), if formSettings.gap != "" then formSettings.gap else "1rem")
    }

    /** `getComponentGridStyle`: the shared placement rule, in a form of the given or the configured width. */
    function GetComponentGridStyle(c: NestedComponent, gridColumns: Option<int>): (style: FormBuilderUtils.GridStyle)
      reads this
      ensures FormBuilderUtils.Describes(style, c.settings.grid.GetOr(NoGrid), NumberOr(gridColumns, formSettings.gridColumns))
    {
      FormBuilderUtils.PlacementStyle(c.settings.grid.GetOr(NoGrid), NumberOr(gridColumns, formSettings.gridColumns))
    }
  }

  /**
   * Given a non-zero column count, the composable places a component
   * exactly as the utility does for a flat component with the same grid.
   */
  lemma GridStylesAgree(state: FormBuilderState, c: NestedComponent, flat: ComponentConfig, n: int)
    requires n != 0 && flat.grid == c.settings.grid
    ensures state.GetComponentGridStyle(c, Some(n)) == FormBuilderUtils.GetComponentGridStyle(flat, Some(n))
  {
    FormBuilderUtils.DescribesDetermines(
      state.GetComponentGridStyle(c, Some(n)), FormBuilderUtils.GetComponentGridStyle(flat, Some(n)),
      c.settings.grid.GetOr(NoGrid), n);
  }
}
