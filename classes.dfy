/**
 * The class-based builder: `FormComponent` wraps one flat configuration and
 * gives it an id; `FormBuilder` keeps the form's options and a map from
 * component id to component, refusing invalid components and a second
 * component under a name already taken by another id.
 */
module Classes {
  import opened Wrappers
  import opened JsValues
  import opened Text
  import opened FormTypes
  import opened ComponentNames
  import opened OrderedMaps

  // ---------------------------------------------------------------- errors

  /** What `FormBuilderError` is thrown with. */
  datatype BuilderError =
    | ValidationFailed(errors: seq<string>)
    | DuplicateName(name: string)
  {
    function Message(): (msg: string)
      ensures ValidationFailed? ==> msg == "Component validation failed (" + Join(errors, ", ") + ")"
      ensures DuplicateName? ==> msg == "Component with name \"" + name + "\" already exists"
    {
      match this
      case ValidationFailed(errs) => "Component validation failed (" + Join(errs, ", ") + ")"
      case DuplicateName(n) => "Component with name \"" + n + "\" already exists"
    }
  }

  /**
   * The message tells the two errors apart, and a duplicate's message names
   * exactly one component name.
   */
  lemma MessageIdentifiesDuplicate(e1: BuilderError, e2: BuilderError)
    ensures e1.ValidationFailed? && e2.DuplicateName? ==> e1.Message() != e2.Message()
    ensures e1.DuplicateName? && e2.DuplicateName? && e1.Message() == e2.Message() ==> e1 == e2
  {
    if e1.ValidationFailed? && e2.DuplicateName? {
      assert e1.Message()[10] != e2.Message()[10];
    }
    if e1.DuplicateName? && e2.DuplicateName? && e1.Message() == e2.Message() {
      var suffix := "\" already exists";
      var prefix := "Component with name \"";
      assert e1.Message() == prefix + (e1.name + suffix);
      assert e2.Message() == prefix + (e2.name + suffix);
      assert e1.name + suffix == e2.name + suffix by {
        assert e1.name + suffix == e1.Message()[|prefix|..];
        assert e2.name + suffix == e2.Message()[|prefix|..];
      }
      assert e1.name == (e1.name + suffix)[..|e1.name|];
      assert e2.name == (e2.name + suffix)[..|e2.name|];
    }
  }

  const FormEmpty := "Form must have at least one component"

  // ------------------------------------------------------------------- ids

  /**
   * What the id generator reads from its environment: the clock in
   * milliseconds and the (up to seven) base-36 characters drawn from the random
   * source.
   */
  datatype IdSeed = IdSeed(now: nat, random: string)

  const IdPrefix := "component_"

  /** `component_${Date.now()}_${random}`. */
  function GenerateId(seed: IdSeed): (id: string)
    ensures |id| > |IdPrefix| && id[..|IdPrefix|] == IdPrefix
  {
    IdPrefix + NatToString(seed.now) + "_" + seed.random
  }

  /** Two ids generated at different instants, or with different random parts, differ. */
  lemma GenerateIdInjective(s1: IdSeed, s2: IdSeed)
    requires GenerateId(s1) == GenerateId(s2)
    ensures s1 == s2
  {
    var d1, d2 := NatToString(s1.now), NatToString(s2.now);
    var t1, t2 := "_" + s1.random, "_" + s2.random;
    assert d1 + t1 == d2 + t2 by {
      assert GenerateId(s1) == IdPrefix + (d1 + t1);
      assert GenerateId(s2) == IdPrefix + (d2 + t2);
      assert d1 + t1 == GenerateId(s1)[|IdPrefix|..];
      assert d2 + t2 == GenerateId(s2)[|IdPrefix|..];
    }
    SplitAfterDigits(d1, t1, d2, t2);
    DigitsValueOfNatToString(s1.now);
    DigitsValueOfNatToString(s2.now);
    assert s1.random == t1[1..] && s2.random == t2[1..];
  }

  /** A run of digits followed by a non-digit splits only one way. */
  lemma SplitAfterDigits(d1: string, t1: string, d2: string, t2: string)
    requires AllDigits(d1) && AllDigits(d2)
    requires t1 != [] && !IsDigit(t1[0]) && t2 != [] && !IsDigit(t2[0])
    requires d1 + t1 == d2 + t2
    ensures d1 == d2 && t1 == t2
  {
    DigitRunOfDigitsThen(d1, t1);
    DigitRunOfDigitsThen(d2, t2);
    assert d1 == (d1 + t1)[..|d1|] && d2 == (d2 + t2)[..|d2|];
    assert t1 == (d1 + t1)[|d1|..] && t2 == (d2 + t2)[|d2|..];
  }

  /** The getter `id`: the configuration's id, or "" when it has none. */
  function IdOf(c: ComponentConfig): string {
    c.id.GetOr("")
  }

  /** The getter `name`: the configuration's name, or "" when it has none. */
  function NameOf(c: ComponentConfig): string {
    c.name.GetOr("")
  }

  /** The constructor's copy: a missing or empty id is replaced by a generated one, anything else kept. */
  function WithId(c: ComponentConfig, seed: IdSeed): (r: ComponentConfig)
    ensures TruthyString(r.id)
    ensures TruthyString(c.id) ==> r == c
    ensures !TruthyString(c.id) ==> r == c.(id := Some(GenerateId(seed)))
  {
    if TruthyString(c.id) then c else c.(id := Some(GenerateId(seed)))
  }

  // ------------------------------------------------------------ validation

  /**
   * `FormComponent.validate`: a missing or empty name is reported as
   * required, any other name that does not match the name pattern as badly
   * formed; valid exactly when nothing is reported.
   */
  function ValidateConfig(c: ComponentConfig): (r: ValidationResult)
    ensures r.valid <==> r.errors == []
    ensures r.valid <==> c.name.Some? && IsValidName(c.name.value)
    ensures !TruthyString(c.name) ==> r.errors == [NameRequired]
    ensures TruthyString(c.name) && !IsValidName(c.name.value) ==> r.errors == [NameFormat]
  {
    var missing := if !TruthyString(c.name) then [NameRequired] else [];
    var malformed := if TruthyString(c.name) && !IsValidName(c.name.value) then [NameFormat] else [];
    var errors := missing + malformed;
    ValidationResult(|errors| == 0, errors)
  }

  // --------------------------------------------------------------- patches

  /** `a ?? b` over one optional field of a spread: a field the patch sets wins. */
  function Override<T>(patch: Option<T>, base: Option<T>): (r: Option<T>)
    ensures patch.Some? ==> r == patch
    ensures patch.None? ==> r == base
  {
    if patch.Some? then patch else base
  }

  /** `Partial<ComponentConfig>`: the fields an update sets; its props are merged key by key. */
  datatype ConfigPatch = ConfigPatch(
    kind: Option<ComponentKind>,
    name: Option<string>,
    id: Option<string>,
    grid: Option<GridLayout>,
    validation: Option<ValidationRule>,
    defaultValue: Option<Value>,
    attrs: Attrs)

  /** `{ ...config, ...updates }`. */
  function ApplyPatch(c: ComponentConfig, p: ConfigPatch): (r: ComponentConfig)
    ensures r.kind == p.kind.GetOr(c.kind)
    ensures p.name.Some? ==> r.name == p.name
    ensures p.name.None? ==> r.name == c.name
    ensures p.id.Some? ==> r.id == p.id
    ensures p.id.None? ==> r.id == c.id
    ensures p.grid.Some? ==> r.grid == p.grid
    ensures p.grid.None? ==> r.grid == c.grid
    ensures p.validation.Some? ==> r.validation == p.validation
    ensures p.validation.None? ==> r.validation == c.validation
    ensures p.defaultValue.Some? ==> r.defaultValue == p.defaultValue
    ensures p.defaultValue.None? ==> r.defaultValue == c.defaultValue
    ensures r.attrs.Keys == c.attrs.Keys + p.attrs.Keys
    ensures forall k :: k in r.attrs ==> r.attrs[k] == if k in p.attrs then p.attrs[k] else c.attrs[k]
  {
    ComponentConfig(
      p.kind.GetOr(c.kind),
      Override(p.name, c.name),
      Override(p.id, c.id),
      Override(p.grid, c.grid),
      Override(p.validation, c.validation),
      Override(p.defaultValue, c.defaultValue),
      c.attrs + p.attrs)
  }

  /** Applying the same update twice is applying it once. */
  lemma ApplyPatchIdempotent(c: ComponentConfig, p: ConfigPatch)
    ensures ApplyPatch(ApplyPatch(c, p), p) == ApplyPatch(c, p)
  {
    var once := ApplyPatch(c, p);
    assert once.attrs + p.attrs == once.attrs;
  }

  /** `{ ...this.config.grid, ...grid }`: an absent grid behaves as an empty one. */
  function MergeGrid(base: Option<GridLayout>, p: GridLayout): (r: GridLayout)
    ensures p.col.Some? ==> r.col == p.col
    ensures p.col.None? ==> r.col == base.GetOr(NoGrid).col
    ensures p.row.Some? ==> r.row == p.row
    ensures p.row.None? ==> r.row == base.GetOr(NoGrid).row
    ensures p.colStart.Some? ==> r.colStart == p.colStart
    ensures p.colStart.None? ==> r.colStart == base.GetOr(NoGrid).colStart
    ensures p.rowStart.Some? ==> r.rowStart == p.rowStart
    ensures p.rowStart.None? ==> r.rowStart == base.GetOr(NoGrid).rowStart
  {
    var b := base.GetOr(NoGrid);
    GridLayout(Override(p.col, b.col), Override(p.row, b.row), Override(p.colStart, b.colStart), Override(p.rowStart, b.rowStart))
  }

  /** Merging a layout adds nothing the second time, and an empty layout merges to what was there. */
  lemma MergeGridProperties(base: Option<GridLayout>, p: GridLayout)
    ensures MergeGrid(Some(MergeGrid(base, p)), p) == MergeGrid(base, p)
    ensures MergeGrid(base, NoGrid) == base.GetOr(NoGrid)
  {
  }

  /** `{ ...this.config.validation, ...validation }`: an absent rule behaves as an empty one. */
  function MergeValidation(base: Option<ValidationRule>, p: ValidationRule): (r: ValidationRule)
    ensures p.required.Some? ==> r.required == p.required
    ensures p.required.None? ==> r.required == base.GetOr(NoValidation).required
    ensures p.min.Some? ==> r.min == p.min
    ensures p.min.None? ==> r.min == base.GetOr(NoValidation).min
    ensures p.max.Some? ==> r.max == p.max
    ensures p.max.None? ==> r.max == base.GetOr(NoValidation).max
    ensures p.minLength.Some? ==> r.minLength == p.minLength
    ensures p.minLength.None? ==> r.minLength == base.GetOr(NoValidation).minLength
    ensures p.maxLength.Some? ==> r.maxLength == p.maxLength
    ensures p.maxLength.None? ==> r.maxLength == base.GetOr(NoValidation).maxLength
    ensures p.pattern.Some? ==> r.pattern == p.pattern
    ensures p.pattern.None? ==> r.pattern == base.GetOr(NoValidation).pattern
    ensures p.email.Some? ==> r.email == p.email
    ensures p.email.None? ==> r.email == base.GetOr(NoValidation).email
    ensures p.url.Some? ==> r.url == p.url
    ensures p.url.None? ==> r.url == base.GetOr(NoValidation).url
    ensures p.numeric.Some? ==> r.numeric == p.numeric
    ensures p.numeric.None? ==> r.numeric == base.GetOr(NoValidation).numeric
    ensures p.alpha.Some? ==> r.alpha == p.alpha
    ensures p.alpha.None? ==> r.alpha == base.GetOr(NoValidation).alpha
    ensures p.alphaNum.Some? ==> r.alphaNum == p.alphaNum
    ensures p.alphaNum.None? ==> r.alphaNum == base.GetOr(NoValidation).alphaNum
    ensures p.custom.Some? ==> r.custom == p.custom
    ensures p.custom.None? ==> r.custom == base.GetOr(NoValidation).custom
    ensures p.message.Some? ==> r.message == p.message
    ensures p.message.None? ==> r.message == base.GetOr(NoValidation).message
  {
    var b := base.GetOr(NoValidation);
    ValidationRule(
      Override(p.required, b.required),
      Override(p.min, b.min),
      Override(p.max, b.max),
      Override(p.minLength, b.minLength),
      Override(p.maxLength, b.maxLength),
      Override(p.pattern, b.pattern),
      Override(p.email, b.email),
      Override(p.url, b.url),
      Override(p.numeric, b.numeric),
      Override(p.alpha, b.alpha),
      Override(p.alphaNum, b.alphaNum),
      Override(p.custom, b.custom),
      Override(p.message, b.message))
  }

  /** Merging a rule adds nothing the second time, and an empty rule merges to what was there. */
  lemma MergeValidationProperties(base: Option<ValidationRule>, p: ValidationRule)
    ensures MergeValidation(Some(MergeValidation(base, p)), p) == MergeValidation(base, p)
    ensures MergeValidation(base, NoValidation) == base.GetOr(NoValidation)
  {
  }

  // --------------------------------------------------------- FormComponent

  /** One component of the class-based builder. */
  class FormComponent {
    var config: ComponentConfig

    /** `new FormComponent(config)`: the copy always ends up with a non-empty id. */
    constructor(c: ComponentConfig, seed: IdSeed)
      ensures config == WithId(c, seed)
      ensures Id() != ""
    {
      config := WithId(c, seed);
    }

    /** The getter `id`: empty exactly when the configuration has no usable id. */
    function Id(): (id: string)
      reads this
      ensures id != "" <==> TruthyString(config.id)
      ensures config.id.Some? ==> id == config.id.value
      ensures config.id.None? ==> id == ""
    {
      IdOf(config)
    }

    /** The getter `type`: the kind whose `type` literal the configuration carries. */
    function Kind(): (k: ComponentKind)
      reads this
      ensures k == config.kind
    {
      config.kind
    }

    /** The getter `name`: empty exactly when the configuration has no usable name. */
    function Name(): (name: string)
      reads this
      ensures name != "" <==> TruthyString(config.name)
      ensures config.name.Some? ==> name == config.name.value
      ensures config.name.None? ==> name == ""
    {
      NameOf(config)
    }

    /** `getConfig`: a copy of the configuration, agreeing with the getters. */
    function GetConfig(): (c: ComponentConfig)
      reads this
      ensures c == config
      ensures IdOf(c) == Id() && NameOf(c) == Name() && c.kind == Kind()
    {
      config
    }

    /** `validate`: the component is valid exactly when its name getter gives a well-formed name. */
    function Validate(): (r: ValidationResult)
      reads this
      ensures r.valid <==> IsValidName(Name())
      ensures r == ValidateConfig(config)
    {
      ValidateConfig(config)
    }

    method UpdateConfig(updates: ConfigPatch)
      modifies this
      ensures config == ApplyPatch(old(config), updates)
    {
      config := ApplyPatch(config, updates);
    }

    method SetGridLayout(grid: GridLayout)
      modifies this
      ensures config == old(config).(grid := Some(MergeGrid(old(config).grid, grid)))
    {
      config := config.(grid := Some(MergeGrid(config.grid, grid)));
    }

    method SetValidation(validation: ValidationRule)
      modifies this
      ensures config == old(config).(validation := Some(MergeValidation(old(config).validation, validation)))
    {
      config := config.(validation := Some(MergeValidation(config.validation, validation)));
    }
  }

  // ----------------------------------------------------------- form options

  /** The form's own settings as the builder keeps them (its `FormConfig` without the components). */
  datatype FormOptions = FormOptions(
    name: Option<string>,
    gridColumns: int,
    gap: string,
    submitButton: Button,
    cancelButton: Option<Button>,
    validateOnMount: bool,
    validateOnBlur: bool,
    validateOnChange: bool,
    validateOnInput: bool)

  /** `Partial<Omit<FormConfig, 'components'>>`: the settings a caller passes. */
  datatype OptionsPatch = OptionsPatch(
    name: Option<string>,
    gridColumns: Option<int>,
    gap: Option<string>,
    submitButton: Option<Button>,
    cancelButton: Option<Button>,
    validateOnMount: Option<bool>,
    validateOnBlur: Option<bool>,
    validateOnChange: Option<bool>,
    validateOnInput: Option<bool>)

  const NoOptions := OptionsPatch(None, None, None, None, None, None, None, None, None)

  const DefaultSubmit := Button("Submit", map["variant" := Str("solid")])

  /**
   * The constructor's settings: a zero or missing column count becomes 12,
   * an empty or missing gap `1rem`, a missing submit button the default one;
   * the flags default with `??`; the form's name is not carried over.
   */
  function InitialOptions(p: OptionsPatch): (o: FormOptions)
    ensures o.name.None?
    ensures o.gridColumns != 0 && o.gap != ""
    ensures TruthyNumber(p.gridColumns) ==> o.gridColumns == p.gridColumns.value
    ensures !TruthyNumber(p.gridColumns) ==> o.gridColumns == 12
    ensures TruthyString(p.gap) ==> o.gap == p.gap.value
    ensures !TruthyString(p.gap) ==> o.gap == "1rem"
    ensures o.submitButton == p.submitButton.GetOr(DefaultSubmit)
    ensures o.cancelButton == p.cancelButton
    ensures o.validateOnMount == p.validateOnMount.GetOr(false)
    ensures o.validateOnBlur == p.validateOnBlur.GetOr(true)
    ensures o.validateOnChange == p.validateOnChange.GetOr(true)
    ensures o.validateOnInput == p.validateOnInput.GetOr(false)
  {
    FormOptions(
      None,
      NumberOr(p.gridColumns, 12),
      if TruthyString(p.gap) then p.gap.value else "1rem",
      p.submitButton.GetOr(DefaultSubmit),
      p.cancelButton,
      p.validateOnMount.GetOr(false),
      p.validateOnBlur.GetOr(true),
      p.validateOnChange.GetOr(true),
      p.validateOnInput.GetOr(false))
  }

  /** `{ ...this.form, ...updates }`: every field the update sets wins, the rest stay. */
  function UpdateOptions(o: FormOptions, p: OptionsPatch): (r: FormOptions)
    ensures p.name.Some? ==> r.name == p.name
    ensures p.name.None? ==> r.name == o.name
    ensures p.gridColumns.Some? ==> r.gridColumns == p.gridColumns.value
    ensures p.gridColumns.None? ==> r.gridColumns == o.gridColumns
    ensures p.gap.Some? ==> r.gap == p.gap.value
    ensures p.gap.None? ==> r.gap == o.gap
    ensures p.submitButton.Some? ==> r.submitButton == p.submitButton.value
    ensures p.submitButton.None? ==> r.submitButton == o.submitButton
    ensures p.cancelButton.Some? ==> r.cancelButton == p.cancelButton
    ensures p.cancelButton.None? ==> r.cancelButton == o.cancelButton
    ensures p.validateOnMount.Some? ==> r.validateOnMount == p.validateOnMount.value
    ensures p.validateOnMount.None? ==> r.validateOnMount == o.validateOnMount
    ensures p.validateOnBlur.Some? ==> r.validateOnBlur == p.validateOnBlur.value
    ensures p.validateOnBlur.None? ==> r.validateOnBlur == o.validateOnBlur
    ensures p.validateOnChange.Some? ==> r.validateOnChange == p.validateOnChange.value
    ensures p.validateOnChange.None? ==> r.validateOnChange == o.validateOnChange
    ensures p.validateOnInput.Some? ==> r.validateOnInput == p.validateOnInput.value
    ensures p.validateOnInput.None? ==> r.validateOnInput == o.validateOnInput
    ensures p == NoOptions ==> r == o
  {
    FormOptions(
      Override(p.name, o.name),
      p.gridColumns.GetOr(o.gridColumns),
      p.gap.GetOr(o.gap),
      p.submitButton.GetOr(o.submitButton),
      Override(p.cancelButton, o.cancelButton),
      p.validateOnMount.GetOr(o.validateOnMount),
      p.validateOnBlur.GetOr(o.validateOnBlur),
      p.validateOnChange.GetOr(o.validateOnChange),
      p.validateOnInput.GetOr(o.validateOnInput))
  }

  /** The settings written out again, as an export would. */
  function AsPatch(o: FormOptions): OptionsPatch {
    OptionsPatch(
      o.name, Some(o.gridColumns), Some(o.gap), Some(o.submitButton), o.cancelButton,
      Some(o.validateOnMount), Some(o.validateOnBlur), Some(o.validateOnChange), Some(o.validateOnInput))
  }

  /**
   * Rebuilding from exported settings gives them back, except the form's
   * name, which the constructor drops; a zero column count or an empty gap
   * would come back as the defaults.
   */
  lemma OptionsRoundTrip(o: FormOptions)
    requires o.gridColumns != 0 && o.gap != ""
    ensures InitialOptions(AsPatch(o)) == o.(name := None)
  {
  }

  /** Updating with exported settings reproduces them exactly, name included. */
  lemma UpdateWithExport(o: FormOptions, base: FormOptions)
    requires o.name.Some? || base.name.None?
    requires o.cancelButton.Some? || base.cancelButton.None?
    ensures UpdateOptions(base, AsPatch(o)) == o
  {
  }

  /** What `getFormConfig` returns. */
  datatype FormConfig = FormConfig(options: FormOptions, components: seq<ComponentConfig>)

  /** What `new FormBuilder(config)` is given: the settings and, optionally, components. */
  datatype FormConfigInput = FormConfigInput(options: OptionsPatch, components: Option<seq<ComponentConfig>>)

  // --------------------------------------------------- the component table

  /** An existing component blocks `c`: same name, different id. */
  predicate Clashes(existing: ComponentConfig, c: ComponentConfig) {
    NameOf(existing) == NameOf(c) && IdOf(existing) != IdOf(c)
  }

  predicate HasClash(m: OrderedMap<ComponentConfig>, c: ComponentConfig) {
    exists k :: k in m.table && Clashes(m.table[k], c)
  }

  /**
   * The builder's table as `addComponent` keeps it: every component is
   * stored under its own id, is valid, and no two ids share a name.
   */
  ghost predicate WellFormed(m: OrderedMap<ComponentConfig>) {
    && m.Valid()
    && (forall k :: k in m.table ==> IdOf(m.table[k]) == k && ValidateConfig(m.table[k]).valid)
    && (forall j, k :: j in m.table && k in m.table && j != k ==> NameOf(m.table[j]) != NameOf(m.table[k]))
  }

  /**
   * `addComponent` on the table: an invalid component fails with its
   * validation errors, then a name clash fails with the name; otherwise the
   * component is stored under its id, replacing one with the same id in
   * place, and every other entry stays.
   */
  function TryAdd(m: OrderedMap<ComponentConfig>, c: ComponentConfig): (r: Result<OrderedMap<ComponentConfig>, BuilderError>)
    requires m.Valid()
    ensures r.Failure? <==> !ValidateConfig(c).valid || HasClash(m, c)
    ensures !ValidateConfig(c).valid ==> r == Failure(ValidationFailed(ValidateConfig(c).errors))
    ensures ValidateConfig(c).valid && HasClash(m, c) ==> r == Failure(DuplicateName(NameOf(c)))
    ensures r.Success? ==> r.value.Valid() && r.value.Get(IdOf(c)) == Some(c)
    ensures r.Success? ==> forall k :: k != IdOf(c) ==> r.value.Get(k) == m.Get(k)
    ensures r.Success? && WellFormed(m) ==> WellFormed(r.value)
  {
    var validation := ValidateConfig(c);
    if !validation.valid then Failure(ValidationFailed(validation.errors))
    else if HasClash(m, c) then Failure(DuplicateName(NameOf(c)))
    else
      var r := m.Set(IdOf(c), c);
      assert WellFormed(m) ==> WellFormed(r) by {
        if WellFormed(m) {
          forall j, k | j in r.table && k in r.table && j != k
            ensures NameOf(r.table[j]) != NameOf(r.table[k])
          {
            assert r.Get(j).Some? && r.Get(k).Some?;
            if j == IdOf(c) {
              assert !Clashes(m.table[k], c);
            } else if k == IdOf(c) {
              assert !Clashes(m.table[j], c);
            }
          }
        }
      }
      Success(r)
  }

  /** A valid component without a clash is stored under its id. */
  lemma AddStores(m: OrderedMap<ComponentConfig>, c: ComponentConfig)
    requires m.Valid() && ValidateConfig(c).valid && !HasClash(m, c)
    ensures TryAdd(m, c) == Success(m.Set(IdOf(c), c))
  {
  }

  /** `delete` keeps every other entry, so the table stays well formed. */
  lemma DeletePreservesWellFormed(m: OrderedMap<ComponentConfig>, id: string)
    requires WellFormed(m)
    ensures WellFormed(m.Delete(id))
  {
    var r := m.Delete(id);
    forall k | k in r.table
      ensures k in m.table && r.table[k] == m.table[k]
    {
      assert r.Get(k) == m.Get(k);
    }
  }

  /**
   * The constructor's `forEach`: each configuration, given an id by its
   * own seed, is added in turn; the first failure ends the construction.
   */
  function AddAll(m: OrderedMap<ComponentConfig>, comps: seq<ComponentConfig>, seeds: nat -> IdSeed, from: nat)
    : (r: Result<OrderedMap<ComponentConfig>, BuilderError>)
    requires m.Valid() && from <= |comps|
    ensures r.Success? ==> r.value.Valid()
    ensures r.Success? ==> forall k :: k in m.table ==> k in r.value.table
    decreases |comps| - from
  {
    if from == |comps| then Success(m)
    else
      match TryAdd(m, WithId(comps[from], seeds(from)))
      case Failure(e) => Failure(e)
      case Success(m') => AddAll(m', comps, seeds, from + 1)
  }

  /** One step of the construction: the i-th component is added, or its error ends it. */
  lemma AddAllStep(m: OrderedMap<ComponentConfig>, comps: seq<ComponentConfig>, seeds: nat -> IdSeed, i: nat)
    requires m.Valid() && i < |comps|
    ensures var step := TryAdd(m, WithId(comps[i], seeds(i)));
      && (step.Failure? ==> AddAll(m, comps, seeds, i) == Failure(step.error))
      && (step.Success? ==> AddAll(m, comps, seeds, i) == AddAll(step.value, comps, seeds, i + 1))
  {
  }

  /** The id the i-th configuration is added under: its own, or the one its seed generates. */
  function SuppliedId(comps: seq<ComponentConfig>, seeds: nat -> IdSeed, i: nat): string
    requires i < |comps|
  {
    IdOf(WithId(comps[i], seeds(i)))
  }

  /** The ids the configurations from position `from` on are added under, in order. */
  function SuppliedIds(comps: seq<ComponentConfig>, seeds: nat -> IdSeed, from: nat): (ids: seq<string>)
    requires from <= |comps|
    ensures |ids| == |comps| - from
    decreases |comps| - from
  {
    if from == |comps| then [] else [SuppliedId(comps, seeds, from)] + SuppliedIds(comps, seeds, from + 1)
  }

  /** The j-th supplied id from `from` on is the configuration at `from + j`'s. */
  lemma {:induction false} SuppliedIdsAt(comps: seq<ComponentConfig>, seeds: nat -> IdSeed, from: nat, j: nat)
    requires from + j < |comps|
    ensures SuppliedIds(comps, seeds, from)[j] == SuppliedId(comps, seeds, from + j)
    decreases j
  {
    if j > 0 {
      SuppliedIdsAt(comps, seeds, from + 1, j - 1);
    }
  }

  /**
   * A starting entry survives the construction wherever no configuration is
   * added under its id: `Map.set` touches only the id it is given.
   */
  lemma {:induction false} AddAllKeepsUnsupplied(m: OrderedMap<ComponentConfig>, comps: seq<ComponentConfig>, seeds: nat -> IdSeed, from: nat, k: string)
    requires m.Valid() && from <= |comps| && k in m.table && k !in SuppliedIds(comps, seeds, from)
    ensures var r := AddAll(m, comps, seeds, from);
      r.Success? ==> k in r.value.table && r.value.table[k] == m.table[k]
    decreases |comps| - from
  {
    if from < |comps| {
      var c := WithId(comps[from], seeds(from));
      match TryAdd(m, c)
      case Failure(_) =>
      case Success(m') =>
        assert m'.Get(k) == m.Get(k);
        AddAllKeepsUnsupplied(m', comps, seeds, from + 1, k);
    }
  }

  /**
   * What a successful construction stores: every supplied id is a key, and
   * under each id the last configuration given that id, since `Map.set`
   * replaces an entry with the same id.
   */
  lemma {:induction false} AddAllStoresLast(m: OrderedMap<ComponentConfig>, comps: seq<ComponentConfig>, seeds: nat -> IdSeed, from: nat, i: nat)
    requires m.Valid() && from <= i < |comps|
    ensures var r := AddAll(m, comps, seeds, from);
      r.Success? ==>
        && SuppliedId(comps, seeds, i) in r.value.table
        && (SuppliedId(comps, seeds, i) !in SuppliedIds(comps, seeds, i + 1) ==>
              r.value.table[SuppliedId(comps, seeds, i)] == WithId(comps[i], seeds(i)))
    decreases |comps| - from
  {
    var c := WithId(comps[from], seeds(from));
    match TryAdd(m, c)
    case Failure(_) =>
    case Success(m') =>
      if i == from {
        var id := SuppliedId(comps, seeds, from);
        assert m'.Get(id) == Some(c);
        var later := SuppliedIds(comps, seeds, from + 1);
        if id in later {
          var j :| 0 <= j < |later| && later[j] == id;
          assert later[j] == SuppliedId(comps, seeds, from + 1 + j) by {
            SuppliedIdsAt(comps, seeds, from + 1, j);
          }
          AddAllStoresLast(m', comps, seeds, from + 1, from + 1 + j);
        } else {
          AddAllKeepsUnsupplied(m', comps, seeds, from + 1, id);
        }
      } else {
        AddAllStoresLast(m', comps, seeds, from + 1, i);
      }
  }

  /** Construction from any list of configurations leaves a well-formed table. */
  lemma {:induction false} AddAllWellFormed(m: OrderedMap<ComponentConfig>, comps: seq<ComponentConfig>, seeds: nat -> IdSeed, from: nat)
    requires WellFormed(m) && from <= |comps|
    ensures AddAll(m, comps, seeds, from).Success? ==> WellFormed(AddAll(m, comps, seeds, from).value)
    decreases |comps| - from
  {
    if from < |comps| {
      var r := TryAdd(m, WithId(comps[from], seeds(from)));
      if r.Success? {
        AddAllWellFormed(r.value, comps, seeds, from + 1);
      }
    }
  }

  /** The table holding the first i entries of m, in m's order. */
  function Prefix(m: OrderedMap<ComponentConfig>, i: nat): (p: OrderedMap<ComponentConfig>)
    requires m.Valid() && i <= |m.keys|
    ensures p.Valid()
  {
    var ks := m.keys[..i];
    assert forall k :: k in ks ==> k in m.keys;
    OrderedMap(ks, map k | k in ks :: m.table[k])
  }

  /**
   * Rebuilding a builder from the components it exports gives back the same
   * table, in the same order, whatever the clock and random source say: the
   * components already carry their ids.
   */
  lemma RebuildRoundTrip(m: OrderedMap<ComponentConfig>, seeds: nat -> IdSeed)
    requires WellFormed(m) && "" !in m.table
    ensures AddAll(OrderedMap.Empty(), m.Values(), seeds, 0) == Success(m)
  {
    assert Prefix(m, 0) == OrderedMap.Empty();
    RebuildFrom(m, seeds, 0);
  }

  lemma {:induction false} RebuildFrom(m: OrderedMap<ComponentConfig>, seeds: nat -> IdSeed, i: nat)
    requires WellFormed(m) && "" !in m.table && i <= |m.keys|
    ensures AddAll(Prefix(m, i), m.Values(), seeds, i) == Success(m)
    decreases |m.keys| - i
  {
    if i == |m.keys| {
      assert m.keys[..i] == m.keys;
      assert Prefix(m, i) == m;
    } else {
      var c := m.Values()[i];
      assert WithId(c, seeds(i)) == c by {
        assert c == m.table[m.keys[i]];
      }
      PrefixStep(m, i);
      RebuildFrom(m, seeds, i + 1);
    }
  }

  /** Adding the i-th component of a well-formed table to its first i entries gives its first i + 1. */
  lemma PrefixStep(m: OrderedMap<ComponentConfig>, i: nat)
    requires WellFormed(m) && i < |m.keys|
    ensures TryAdd(Prefix(m, i), m.Values()[i]) == Success(Prefix(m, i + 1))
  {
    var c := m.table[m.keys[i]];
    assert m.Values()[i] == c;
    PrefixHasNoClash(m, i);
    AddStores(Prefix(m, i), c);
    PrefixExtends(m, i);
  }

  /** None of the first i entries clashes with the i-th. */
  lemma PrefixHasNoClash(m: OrderedMap<ComponentConfig>, i: nat)
    requires WellFormed(m) && i < |m.keys|
    ensures !HasClash(Prefix(m, i), m.table[m.keys[i]])
  {
    var p := Prefix(m, i);
    var k := m.keys[i];
    var c := m.table[k];
    assert IdOf(c) == k;
    forall j | j in p.table ensures !Clashes(p.table[j], c) {
      assert j in m.keys[..i];
      assert j != k;
    }
  }

  /** Setting the i-th entry on the first i entries gives the first i + 1. */
  lemma PrefixExtends(m: OrderedMap<ComponentConfig>, i: nat)
    requires m.Valid() && i < |m.keys|
    ensures Prefix(m, i).Set(m.keys[i], m.table[m.keys[i]]) == Prefix(m, i + 1)
  {
    var p := Prefix(m, i);
    var k := m.keys[i];
    assert k !in p.table;
    var next := p.Set(k, m.table[k]);
    assert next.keys == m.keys[..i + 1];
    assert next.table == Prefix(m, i + 1).table;
  }

  /** `{ valid, errors }` of the whole form: error lists keyed by component id, and `form`. */
  datatype FormReport = FormReport(valid: bool, errors: map<string, seq<string>>)

  /**
   * `FormBuilder.validate`: an empty form is reported under `form`; every
   * invalid component under its id; valid exactly when nothing is reported.
   */
  function Report(m: OrderedMap<ComponentConfig>): (r: FormReport)
    ensures r.valid <==> r.errors == map[]
    ensures |m.keys| == 0 ==> "form" in r.errors
  {
    var errors := if |m.keys| == 0 then map["form" := [FormEmpty]] else InvalidErrors(m, m.keys);
    assert |errors| == 0 <==> errors == map[] by {
      if |errors| == 0 {
        assert forall k :: k !in errors;
      }
    }
    FormReport(|errors| == 0, errors)
  }

  /** The error lists of the invalid components among those with ids in ks. */
  function InvalidErrors(m: OrderedMap<ComponentConfig>, ks: seq<string>): map<string, seq<string>> {
    map k | k in ks && k in m.table && !ValidateConfig(m.table[k]).valid :: ValidateConfig(m.table[k]).errors
  }

  /** Visiting one more id adds its errors if it is invalid, and nothing otherwise. */
  lemma InvalidErrorsStep(m: OrderedMap<ComponentConfig>, ks: seq<string>, k: string)
    requires k in m.table
    ensures !ValidateConfig(m.table[k]).valid ==>
      InvalidErrors(m, ks + [k]) == InvalidErrors(m, ks)[k := ValidateConfig(m.table[k]).errors]
    ensures ValidateConfig(m.table[k]).valid ==> InvalidErrors(m, ks + [k]) == InvalidErrors(m, ks)
  {
    assert forall j :: j in ks + [k] <==> j in ks || j == k;
  }

  /** A table built by `addComponent` is valid exactly when it holds a component. */
  lemma ReportOfWellFormed(m: OrderedMap<ComponentConfig>)
    requires WellFormed(m)
    ensures Report(m).valid <==> |m.keys| > 0
    ensures |m.keys| > 0 ==> Report(m).errors == map[]
    ensures |m.keys| == 0 ==> Report(m).errors == map["form" := [FormEmpty]]
  {
    m.EmptyIffNoEntries();
  }

  // ----------------------------------------------------------- FormBuilder

  class FormBuilder {
    /** The form's settings. */
    var options: FormOptions
    /** `form.components`, refreshed after every change to the table. */
    var listed: seq<ComponentConfig>
    /** The components by id, in insertion order. */
    var components: OrderedMap<ComponentConfig>

    ghost predicate Valid()
      reads this
    {
      WellFormed(components) && listed == components.Values()
    }

    /** `new FormBuilder(config)` up to its components: the settings with their defaults and an empty table. */
    constructor(settings: OptionsPatch)
      ensures Valid()
      ensures options == InitialOptions(settings)
      ensures components == OrderedMap.Empty() && listed == []
    {
      options := InitialOptions(settings);
      listed := [];
      components := OrderedMap.Empty();
    }

    /**
     * `new FormBuilder(config)`: the settings, then the components added one
     * by one; the first failing component makes construction fail with its
     * error.
     */
    static method Create(config: FormConfigInput, seeds: nat -> IdSeed) returns (result: Result<FormBuilder, BuilderError>)
      ensures var built := AddAll(OrderedMap.Empty(), config.components.GetOr([]), seeds, 0);
        && (built.Failure? ==> result == Failure(built.error))
        && (built.Success? ==>
              && result.Success? && fresh(result.value) && result.value.Valid()
              && result.value.components == built.value
              && result.value.options == InitialOptions(config.options))
    {
      var b := new FormBuilder(config.options);
      var comps := config.components.GetOr([]);
      var i := 0;
      while i < |comps|
        invariant 0 <= i <= |comps|
        invariant fresh(b) && b.Valid() && b.options == InitialOptions(config.options)
        invariant AddAll(OrderedMap.Empty(), comps, seeds, 0) == AddAll(b.components, comps, seeds, i)
        decreases |comps| - i
      {
        var component := new FormComponent(comps[i], seeds(i));
        ghost var before := b.components;
        var error := b.AddComponent(component);
        AddAllStep(before, comps, seeds, i);
        if error.Some? {
          return Failure(error.value);
        }
        i := i + 1;
      }
      return Success(b);
    }

    /** `FormBuilder.fromJSON`: a text that does not parse fails with the parser's message. */
    static method FromJSON(parsed: Result<FormConfigInput, string>, seeds: nat -> IdSeed) returns (result: Result<FormBuilder, string>)
      ensures parsed.Failure? ==> result == Failure(parsed.error)
      ensures parsed.Success? ==>
        var built := AddAll(OrderedMap.Empty(), parsed.value.components.GetOr([]), seeds, 0);
        && (built.Failure? ==> result == Failure(built.error.Message()))
        && (built.Success? ==>
              && result.Success? && fresh(result.value) && result.value.Valid()
              && result.value.components == built.value
              && result.value.options == InitialOptions(parsed.value.options))
    {
      if parsed.Failure? {
        return Failure(parsed.error);
      }
      var created := Create(parsed.value, seeds);
      if created.Failure? {
        return Failure(created.error.Message());
      }
      return Success(created.value);
    }

    /**
     * `addComponent`: validates, scans the stored components for one with
     * the same name and another id, then stores the component under its id.
     */
    method AddComponent(component: FormComponent) returns (error: Option<BuilderError>)
      requires Valid()
      modifies this
      ensures Valid() && options == old(options)
      ensures TryAdd(old(components), component.config) == if error.None? then Success(components) else Failure(error.value)
      ensures error.Some? ==> components == old(components)
    {
      error := None;
      var validation := component.Validate();
      if !validation.valid {
        return Some(ValidationFailed(validation.errors));
      }
      var keys := components.keys;
      var i := 0;
      while i < |keys|
        invariant 0 <= i <= |keys|
        invariant forall j :: 0 <= j < i ==> !Clashes(components.table[keys[j]], component.config)
      {
        if Clashes(components.table[keys[i]], component.config) {
          return Some(DuplicateName(component.Name()));
        }
        i := i + 1;
      }
      assert !HasClash(components, component.config) by {
        forall k | k in components.table ensures !Clashes(components.table[k], component.config) {
          assert k in keys;
        }
      }
      AddStores(components, component.config);
      components := components.Set(component.Id(), component.GetConfig());
      listed := components.Values();
    }

    /** `removeComponent`: reports whether the id was present; the others keep their order. */
    method RemoveComponent(id: string) returns (deleted: bool)
      requires Valid()
      modifies this
      ensures Valid() && options == old(options)
      ensures deleted <==> id in old(components).table
      ensures components == old(components).Delete(id)
    {
      deleted := id in components.table;
      DeletePreservesWellFormed(components, id);
      components := components.Delete(id);
      if deleted {
        listed := components.Values();
      }
    }

    /** `getComponent`: the component stored under that id, which carries that id. */
    function GetComponent(id: string): (r: Option<ComponentConfig>)
      reads this
      requires Valid()
      ensures r.Some? <==> id in components.table
      ensures r.Some? ==> r.value == components.table[id]
      ensures r.Some? ==> IdOf(r.value) == id && ValidateConfig(r.value).valid
    {
      components.Get(id)
    }

    method UpdateFormConfig(updates: OptionsPatch)
      modifies this
      ensures options == UpdateOptions(old(options), updates)
      ensures components == old(components) && listed == old(listed)
    {
      options := UpdateOptions(options, updates);
    }

    /** `getFormConfig`: the settings and a fresh list of the components, equal to the synced one. */
    function GetFormConfig(): (r: FormConfig)
      reads this
      requires Valid()
      ensures r.options == options && r.components == listed
      ensures |r.components| == |components.keys|
    {
      FormConfig(options, components.Values())
    }

    /** `validate`: an empty form is reported under `form`, then each invalid component under its id. */
    method Validate() returns (report: FormReport)
      requires components.Valid()
      ensures report == Report(components)
    {
      var errors: map<string, seq<string>> := map[];
      if |components.keys| == 0 {
        errors := map["form" := [FormEmpty]];
      } else {
        errors := CollectInvalid();
      }
      report := FormReport(|errors| == 0, errors);
    }

    /** The `forEach` of `validate`: visits the components in order, recording each invalid one's errors. */
    method CollectInvalid() returns (errors: map<string, seq<string>>)
      requires components.Valid()
      ensures errors == InvalidErrors(components, components.keys)
    {
      var keys := components.keys;
      errors := map[];
      var i := 0;
      while i < |keys|
        invariant 0 <= i <= |keys|
        invariant errors == InvalidErrors(components, keys[..i])
      {
        var validation := ValidateConfig(components.table[keys[i]]);
        if !validation.valid {
          errors := errors[keys[i] := validation.errors];
        }
        assert keys[..i + 1] == keys[..i] + [keys[i]];
        InvalidErrorsStep(components, keys[..i], keys[i]);
        i := i + 1;
      }
      assert keys[..i] == keys;
    }
  }
}
