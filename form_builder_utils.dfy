/**
 * The two rendering helpers of the flat configuration: the inline grid style
 * of a component and the props handed to its widget.
 */
module FormBuilderUtils {
  import opened Wrappers
  import opened JsValues
  import opened Text
  import opened GridLines
  import opened FormTypes

  /** The inline style of a grid item: `gridColumn` always, `gridRow` only when a row is asked for. */
  datatype GridStyle = GridStyle(gridColumn: string, gridRow: Option<string>)

  /** A placement spanning `span` tracks that starts at line `start` exactly when `start` is set and not 0. */
  predicate Fits(p: Placement, span: int, start: Option<int>) {
    && p.span == span
    && (p.StartSpan? <==> TruthyNumber(start))
    && (p.StartSpan? ==> p.start == start.value)
  }

  /**
   * What a style means for a grid layout in a form of `cols` columns: the
   * column spans `col` (or the whole form when `col` is unset or 0) and
   * starts at `colStart` exactly when that is set; a row placement appears
   * exactly when `row` or `rowStart` is set, spans `row` (or 1) and starts
   * at `rowStart` when that is set. Values are not clamped to the form.
   */
  ghost predicate Describes(style: GridStyle, g: GridLayout, cols: int) {
    && (exists p :: style.gridColumn == Render(p) && Fits(p, NumberOr(g.col, cols), g.colStart))
    && (style.gridRow.Some? <==> TruthyNumber(g.rowStart) || TruthyNumber(g.row))
    && (style.gridRow.Some? ==>
          exists q :: style.gridRow.value == Render(q) && Fits(q, NumberOr(g.row, 1), g.rowStart))
  }

  /** The placement rule both builders share, for a layout `g` in a form of `cols` columns. */
  function PlacementStyle(g: GridLayout, cols: int): (style: GridStyle)
    ensures Describes(style, g, cols)
  {
    var colSpan := NumberOr(g.col, cols);
    var column :=
      if TruthyNumber(g.colStart) then StartSpan(g.colStart.value, colSpan) else Span(colSpan);
    var rowSpan := NumberOr(g.row, 1);
    var row :=
      if TruthyNumber(g.rowStart) then Some(StartSpan(g.rowStart.value, rowSpan))
      else if TruthyNumber(g.row) then Some(Span(rowSpan))
      else None;
    assert Fits(column, colSpan, g.colStart);
    assert row.Some? ==> Fits(row.value, rowSpan, g.rowStart);
    GridStyle(Render(column), if row.Some? then Some(Render(row.value)) else None)
  }

  /** Fits pins a placement down. */
  lemma FitsDetermines(p: Placement, q: Placement, span: int, start: Option<int>)
    requires Fits(p, span, start) && Fits(q, span, start)
    ensures p == q
  {
  }

  /** A layout has one style: two styles describing it are the same style. */
  lemma DescribesDetermines(s1: GridStyle, s2: GridStyle, g: GridLayout, cols: int)
    requires Describes(s1, g, cols) && Describes(s2, g, cols)
    ensures s1 == s2
  {
    var p1 :| s1.gridColumn == Render(p1) && Fits(p1, NumberOr(g.col, cols), g.colStart);
    var p2 :| s2.gridColumn == Render(p2) && Fits(p2, NumberOr(g.col, cols), g.colStart);
    FitsDetermines(p1, p2, NumberOr(g.col, cols), g.colStart);
    if s1.gridRow.Some? {
      var q1 :| s1.gridRow.value == Render(q1) && Fits(q1, NumberOr(g.row, 1), g.rowStart);
      var q2 :| s2.gridRow.value == Render(q2) && Fits(q2, NumberOr(g.row, 1), g.rowStart);
      FitsDetermines(q1, q2, NumberOr(g.row, 1), g.rowStart);
    }
  }

  /** Every style text reads back, through the shorthand grammar, as the placement it was written for. */
  lemma StyleReadsBack(style: GridStyle, g: GridLayout, cols: int)
    requires Describes(style, g, cols)
    ensures exists p :: Parse(style.gridColumn) == Some(p) && Fits(p, NumberOr(g.col, cols), g.colStart)
    ensures style.gridRow.Some? ==>
      exists q :: Parse(style.gridRow.value) == Some(q) && Fits(q, NumberOr(g.row, 1), g.rowStart)
  {
    var p :| style.gridColumn == Render(p) && Fits(p, NumberOr(g.col, cols), g.colStart);
    ParseRender(p);
    if style.gridRow.Some? {
      var q :| style.gridRow.value == Render(q) && Fits(q, NumberOr(g.row, 1), g.rowStart);
      ParseRender(q);
    }
  }

  /**
   * `getComponentGridStyle(component, gridColumns = 12)`: the default
   * applies only when no column count is passed, so an explicit 0 is kept.
   */
  function GetComponentGridStyle(c: ComponentConfig, gridColumns: Option<int>): (style: GridStyle)
    ensures Describes(style, c.grid.GetOr(NoGrid), gridColumns.GetOr(12))
  {
    PlacementStyle(c.grid.GetOr(NoGrid), gridColumns.GetOr(12))
  }

  /** Without a grid a component spans the whole twelve-column form and asks for no row. */
  lemma NoGridSpansTheForm(c: ComponentConfig)
    requires c.grid.None?
    ensures GetComponentGridStyle(c, None) == GridStyle("span 12", None)
  {
    var s := GetComponentGridStyle(c, None);
    assert Render(Span(12)) == "span 12" by { assert IntToString(12) == "12"; }
    assert Fits(Span(12), NumberOr(NoGrid.col, 12), NoGrid.colStart);
    DescribesDetermines(s, GridStyle("span 12", None), NoGrid, 12);
  }

  /** The `type` prop each kind's branch writes, if any: an input kind tells the input which type it is. */
  function TypeProp(c: ComponentConfig): Option<Value> {
    match c.kind
    case Text =>
      var inputType := Get(c.attrs, "inputType");
      Some(if Truthy(inputType) then inputType else Str("text"))
    case Number => Some(Str(KindName(Number)))
    case Date => Some(Str(KindName(Date)))
    case Time => Some(Str(KindName(Time)))
    case File => Some(Str(KindName(File)))
    case _ => None
  }

  /** The props a kind's branch reads again by name and writes back, present even when unset. */
  function Reread(k: ComponentKind): set<string> {
    match k
    case Number => {"min", "max", "step"}
    case Date => {"min", "max"}
    case Time => {"min", "max", "step"}
    case File => {"accept", "multiple", "capture"}
    case _ => {}
  }

  /** The copy of the configuration without `type`, `validation`, `grid` and `defaultValue`. */
  function BaseProps(c: ComponentConfig): (base: map<string, Value>)
    ensures base.Keys == c.attrs.Keys + (if c.name.Some? then {"name"} else {}) + (if c.id.Some? then {"id"} else {})
    ensures forall k :: k in c.attrs ==> base[k] == c.attrs[k]
    ensures c.name.Some? ==> base["name"] == Str(c.name.value)
    ensures c.id.Some? ==> base["id"] == Str(c.id.value)
  {
    var named := if c.name.Some? then c.attrs["name" := Str(c.name.value)] else c.attrs;
    if c.id.Some? then named["id" := Str(c.id.value)] else named
  }

  /** The object literal each branch of the switch spreads over the base props. */
  function BranchProps(c: ComponentConfig): (extra: map<string, Value>)
    ensures extra.Keys == (if TypeProp(c).Some? then {"type"} else {}) + Reread(c.kind)
    ensures TypeProp(c).Some? ==> extra["type"] == TypeProp(c).value
    ensures forall k :: k in Reread(c.kind) ==> extra[k] == Get(c.attrs, k)
  {
    match c.kind
    case Text =>
      var inputType := Get(c.attrs, "inputType");
      map["type" := if Truthy(inputType) then inputType else Str("text")]
    case Number =>
      map["type" := Str("number"), "min" := Get(c.attrs, "min"), "max" := Get(c.attrs, "max"), "step" := Get(c.attrs, "step")]
    case Date =>
      map["type" := Str("date"), "min" := Get(c.attrs, "min"), "max" := Get(c.attrs, "max")]
    case Time =>
      map["type" := Str("time"), "min" := Get(c.attrs, "min"), "max" := Get(c.attrs, "max"), "step" := Get(c.attrs, "step")]
    case File =>
      map["type" := Str("file"), "accept" := Get(c.attrs, "accept"), "multiple" := Get(c.attrs, "multiple"), "capture" := Get(c.attrs, "capture")]
    case _ => map[]
  }

  /**
   * `getComponentProps`: every widget prop, `name` and `id` pass through
   * unchanged; the builder-only fields are dropped; the input kinds add
   * their `type` and re-read their own props, which then read `undefined`
   * when the configuration does not set them.
   */
  function GetComponentProps(c: ComponentConfig): (props: map<string, Value>)
    ensures forall k :: k in props <==>
      || k in c.attrs
      || (k == "name" && c.name.Some?)
      || (k == "id" && c.id.Some?)
      || (k == "type" && TypeProp(c).Some?)
      || k in Reread(c.kind)
    ensures forall k :: k in c.attrs ==> props[k] == c.attrs[k]
    ensures c.name.Some? ==> props["name"] == Str(c.name.value)
    ensures c.id.Some? ==> props["id"] == Str(c.id.value)
    ensures TypeProp(c).Some? ==> props["type"] == TypeProp(c).value
    ensures forall k :: k in Reread(c.kind) && k !in c.attrs ==> props[k] == Undefined
  {
    assert "name" !in Reread(c.kind) && "id" !in Reread(c.kind);
    BaseProps(c) + BranchProps(c)
  }

  /** The props never carry the builder-only fields. */
  lemma PropsOmitBuilderFields(c: ComponentConfig, k: string)
    requires k == "validation" || k == "grid" || k == "defaultValue"
    ensures k !in GetComponentProps(c)
  {
    assert k !in c.attrs by { assert k in ReservedKeys; }
    assert |k| != 2 && |k| != 3;
    assert k != "name" && k != "type" && k != "step" by {
      if k == "grid" {
        assert k[0] == 'g';
      }
    }
    assert k !in Reread(c.kind) by {
      assert k != "accept" && k != "multiple" && k != "capture" by { assert |k| in {4, 10, 12}; }
    }
  }

  /** Layout, validation and default value have no say in the props. */
  lemma PropsIgnoreBuilderFields(c: ComponentConfig, g: Option<GridLayout>, v: Option<ValidationRule>, d: Option<Value>)
    ensures GetComponentProps(c.(grid := g, validation := v, defaultValue := d)) == GetComponentProps(c)
  {
    var c' := c.(grid := g, validation := v, defaultValue := d);
    assert BaseProps(c') == BaseProps(c);
    assert BranchProps(c') == BranchProps(c);
  }

  /** `type` is present exactly for the five input kinds. */
  lemma TypeOnlyForInputKinds(c: ComponentConfig)
    ensures "type" in GetComponentProps(c) <==> c.kind in {Text, Number, Date, Time, File}
  {
    assert "type" in ReservedKeys;
  }
}
