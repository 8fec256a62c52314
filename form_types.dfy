/**
 * The flat component configuration of the class-based builder and of the
 * helper utilities: `type`, `name`, `id`, `grid`, `validation` and
 * `defaultValue` at the top level beside the widget's own props.
 */
module FormTypes {
  import opened Wrappers
  import opened JsValues

  /** The component kinds a configuration may name in `type`. */
  datatype ComponentKind =
    | Text | Textarea | Number | Select | Checkbox | Radio
    | Date | Time | File | Switch | Slider

  /** The literal a configuration carries in `type`. */
  function KindName(k: ComponentKind): string {
    match k
    case Text => "text"
    case Textarea => "textarea"
    case Number => "number"
    case Select => "select"
    case Checkbox => "checkbox"
    case Radio => "radio"
    case Date => "date"
    case Time => "time"
    case File => "file"
    case Switch => "switch"
    case Slider => "slider"
  }

  /** Distinct kinds carry distinct literals, so a test on the literal is a test on the kind. */
  lemma KindNameInjective(j: ComponentKind, k: ComponentKind)
    ensures KindName(j) == KindName(k) <==> j == k
  {
    if j != k {
      assert KindName(j)[0] != KindName(k)[0] || |KindName(j)| != |KindName(k)| || KindName(j)[1] != KindName(k)[1];
    }
  }

  /** Spans and start lines of a component in the form's grid; every field optional. */
  datatype GridLayout = GridLayout(
    col: Option<int>,
    row: Option<int>,
    colStart: Option<int>,
    rowStart: Option<int>)

  /** Independent validation predicates of one field; every field optional. */
  datatype ValidationRule = ValidationRule(
    required: Option<bool>,
    min: Option<int>,
    max: Option<int>,
    minLength: Option<int>,
    maxLength: Option<int>,
    pattern: Option<string>,
    email: Option<bool>,
    url: Option<bool>,
    numeric: Option<bool>,
    alpha: Option<bool>,
    alphaNum: Option<bool>,
    custom: Option<Value>,
    message: Option<string>)

  const NoGrid := GridLayout(None, None, None, None)

  const NoValidation := ValidationRule(None, None, None, None, None, None, None, None, None, None, None, None, None)

  /** The keys a flat configuration holds as typed fields. */
  const ReservedKeys: set<string> := {"type", "name", "id", "grid", "validation", "defaultValue"}

  /** The remaining keys of a flat configuration: the widget's own props. */
  type Attrs = m: map<string, Value> | m.Keys !! ReservedKeys witness map[]

  /** One component in the flat shape. */
  datatype ComponentConfig = ComponentConfig(
    kind: ComponentKind,
    name: Option<string>,
    id: Option<string>,
    grid: Option<GridLayout>,
    validation: Option<ValidationRule>,
    defaultValue: Option<Value>,
    attrs: Attrs)

  /** A submit or cancel button: its `label` and any further button props. */
  datatype Button = Button(labelText: string, extra: map<string, Value>)

  /** `{ valid, errors }` as both component validators return it. */
  datatype ValidationResult = ValidationResult(valid: bool, errors: seq<string>)
}
