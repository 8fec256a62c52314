/**
 * The two grid-placement shorthand forms the form core writes into
 * `grid-column` / `grid-row` (section 8.4 of CSS Grid Layout Module Level 1):
 * `span N` and `S / span N`, and the `repeat(N, 1fr)` track list of the
 * form container. Each rendering comes with a reader, so that a style's
 * meaning can be stated as "this string reads back as that placement".
 */
module GridLines {
  import opened Wrappers
  import opened Text

  /** A placement: span N tracks from the automatic position, or from line S. */
  datatype Placement = Span(span: int) | StartSpan(start: int, span: int)

  function Render(p: Placement): string {
    match p
    case Span(n) => "span " + IntToString(n)
    case StartSpan(s, n) => IntToString(s) + " / span " + IntToString(n)
  }

  /** Reads `span N` or `S / span N` (integers in decimal, optionally negative). */
  function Parse(s: string): Option<Placement> {
    if |s| >= 5 && s[..5] == "span " then
      var r := ReadInt(s[5..]);
      if r.Some? && r.value.1 == "" then Some(Span(r.value.0)) else None
    else
      var r := ReadInt(s);
      if r.Some? && |r.value.1| >= 8 && r.value.1[..8] == " / span " then
        var r2 := ReadInt(r.value.1[8..]);
        if r2.Some? && r2.value.1 == "" then Some(StartSpan(r.value.0, r2.value.0)) else None
      else
        None
  }

  /** Every rendered placement reads back as itself. */
  lemma ParseRender(p: Placement)
    ensures Parse(Render(p)) == Some(p)
  {
    match p
    case Span(n) =>
      var s := Render(p);
      assert s[..5] == "span ";
      assert s[5..] == IntToString(n) + "";
      ReadIntOfIntToString(n, "");
    case StartSpan(a, n) =>
      var s := Render(p);
      var tail := " / span " + IntToString(n);
      assert s == IntToString(a) + tail;
      assert s[0] == IntToString(a)[0];
      assert s[..5] != "span ";
      ReadIntOfIntToString(a, tail);
      assert tail[..8] == " / span ";
      assert tail[8..] == IntToString(n) + "";
      ReadIntOfIntToString(n, "");
  }

  /** Different placements never render to the same text. */
  lemma RenderInjective(p: Placement, q: Placement)
    requires Render(p) == Render(q)
    ensures p == q
  {
    ParseRender(p);
    ParseRender(q);
  }

  /** The `grid-template-columns` value of an N-column form. */
  function RepeatTemplate(n: int): string {
    "repeat(" + IntToString(n) + ", 1fr)"
  }

  /** Reads `repeat(N, 1fr)`. */
  function ParseRepeat(s: string): Option<int> {
    if |s| >= 7 && s[..7] == "repeat(" then
      var r := ReadInt(s[7..]);
      if r.Some? && r.value.1 == ", 1fr)" then Some(r.value.0) else None
    else
      None
  }

  /** The template reads back as its column count. */
  lemma ParseRepeatTemplate(n: int)
    ensures ParseRepeat(RepeatTemplate(n)) == Some(n)
  {
    var s := RepeatTemplate(n);
    assert s[..7] == "repeat(";
    assert s[7..] == IntToString(n) + ", 1fr)";
    ReadIntOfIntToString(n, ", 1fr)");
  }
}
