/** The Subdivision grid calculator: option resolution when an instance is
    built, and the CSS fragments its members produce from the resolved
    configuration. */
module Subdivision {
  import opened JsValues
  import opened Css

  // ---------------------------------------------------------------------
  // Options and their resolution
  // ---------------------------------------------------------------------

  /** The caller's options record; `None` is a key that is absent. */
  datatype SubdivisionOptions = SubdivisionOptions(
    gutter: Option<int>,
    gutterH: Option<int>,
    gutterV: Option<int>,
    containerSelector: Option<string>,
    columnSelector: Option<string>)

  /** The named defaults. Note that the default is for `gutter`, a key the
      merge never turns into `gutterH`. */
  const Defaults := SubdivisionOptions(Some(10), None, None, Some(".grid"), Some("*"))

  /** What is left of the caller's options once the constructor has run:
      `gutter` deleted, `gutterH` taken from `gutter` unless it is a number,
      then `gutterV` taken from the resolved `gutterH` unless it is a number. */
  function Normalize(o: SubdivisionOptions): SubdivisionOptions {
    var h := if o.gutterH.Some? then o.gutterH else o.gutter;
    var v := if o.gutterV.Some? then o.gutterV else h;
    SubdivisionOptions(None, h, v, o.containerSelector, o.columnSelector)
  }

  /** `Object.assign(target, source)` on an options record: every key the
      source has replaces the target's. */
  function Overlay(target: SubdivisionOptions, source: SubdivisionOptions): SubdivisionOptions {
    SubdivisionOptions(
      if source.gutter.Some? then source.gutter else target.gutter,
      if source.gutterH.Some? then source.gutterH else target.gutterH,
      if source.gutterV.Some? then source.gutterV else target.gutterV,
      if source.containerSelector.Some? then source.containerSelector else target.containerSelector,
      if source.columnSelector.Some? then source.columnSelector else target.columnSelector)
  }

  function ToNum(x: Option<int>): Num {
    if x.Some? then Int(x.value) else Undefined
  }

  /** The four stored fields of an instance. */
  datatype GridConfig = GridConfig(
    gutterH: Num,
    gutterV: Num,
    containerSelector: string,
    columnSelector: string)

  /** The configuration an instance ends up with: the defaults overlaid by
      the normalized options, of which the four stored fields are kept. */
  function Resolve(o: SubdivisionOptions): (c: GridConfig)
    ensures c.gutterH == if o.gutterH.Some? then Int(o.gutterH.value)
                         else if o.gutter.Some? then Int(o.gutter.value)
                         else Undefined
    ensures c.gutterV == if o.gutterV.Some? then Int(o.gutterV.value) else c.gutterH
    ensures c.containerSelector == o.containerSelector.GetOr(".grid")
    ensures c.columnSelector == o.columnSelector.GetOr("*")
  {
    var merged := Overlay(Defaults, Normalize(o));
    GridConfig(ToNum(merged.gutterH), ToNum(merged.gutterV),
               merged.containerSelector.GetOr(".grid"), merged.columnSelector.GetOr("*"))
  }

  /** The caller's options object, which the constructor changes in place. */
  class Options {
    var gutter: Option<int>
    var gutterH: Option<int>
    var gutterV: Option<int>
    var containerSelector: Option<string>
    var columnSelector: Option<string>

    /** An object literal holding the given keys. */
    constructor (o: SubdivisionOptions)
      ensures Snapshot() == o
    {
      gutter, gutterH, gutterV := o.gutter, o.gutterH, o.gutterV;
      containerSelector, columnSelector := o.containerSelector, o.columnSelector;
    }

    function Snapshot(): SubdivisionOptions
      reads this
    {
      SubdivisionOptions(gutter, gutterH, gutterV, containerSelector, columnSelector)
    }
  }

  class Subdivision {
    var gutterH: Num
    var gutterV: Num
    var containerSelector: string
    var columnSelector: string

    /** The `gutter` accessor. */
    function Gutter(): (g: Num)
      reads this
      ensures g == gutterH
    {
      gutterH
    }

    function Config(): GridConfig
      reads this
    {
      GridConfig(gutterH, gutterV, containerSelector, columnSelector)
    }

    /** Builds an instance from `options`, deleting `gutter` from it and
        filling in its `gutterH` and `gutterV` on the way. */
    constructor (options: Options)
      modifies options
      ensures Config() == Resolve(old(options.Snapshot()))
      ensures Gutter() == Resolve(old(options.Snapshot())).gutterH
      ensures options.Snapshot() == Normalize(old(options.Snapshot()))
    {
      var gutter := options.gutter;
      options.gutter := None;
      if options.gutterH.None? {
        options.gutterH := gutter;
      }
      if options.gutterV.None? {
        options.gutterV := options.gutterH;
      }
      var merged := Overlay(Defaults, options.Snapshot());
      gutterH := ToNum(merged.gutterH);
      gutterV := ToNum(merged.gutterV);
      containerSelector := merged.containerSelector.GetOr(".grid");
      columnSelector := merged.columnSelector.GetOr("*");
    }
  }

  // ---------------------------------------------------------------------
  // Fragments
  // ---------------------------------------------------------------------

  /** `getOffset(offset, gutter = gutterH)`: the text
      `calc(<percentage(offset)> + <gutter>px);`, its own semicolon included. */
  function GetOffset(c: GridConfig, offset: real, gutter: Num): (v: Value)
    ensures |v| > 0 && v[|v| - 1].Text? && |v[|v| - 1].s| > 0
    ensures v[|v| - 1].s[|v[|v| - 1].s| - 1] == ';'
    ensures Number(OrDefault(gutter, c.gutterH)) in v && Pct(Percentage(offset)) in v
  {
    [Text("calc("), Pct(Percentage(offset)), Text(" + "), Number(OrDefault(gutter, c.gutterH)), Text("px);")]
  }

  /** `offset(offset = 0, gutter = gutterH)`: nothing when the offset is
      zero, otherwise one `margin-left` declaration. */
  function Offset(c: GridConfig, offset: Option<real>, gutter: Num): (f: Fragment)
    ensures f == [] <==> offset.GetOr(0.0) == 0.0
    ensures f != [] ==> f == [Decl("margin-left", GetOffset(c, offset.GetOr(0.0), gutter))]
  {
    var o := offset.GetOr(0.0);
    var g := OrDefault(gutter, c.gutterH);
    if o != 0.0 then [Decl("margin-left", GetOffset(c, o, g))] else []
  }

  /** `gutterLeft + gutterRight - gutterH`, the pixels a column gives up. */
  function GutterWidth(c: GridConfig, gutterLeft: Num, gutterRight: Num): Num {
    Sub(Add(gutterLeft, gutterRight), c.gutterH)
  }

  /** `calc(<percentage(fraction)> - <gutterWidth>px)`. */
  function ColumnWidth(c: GridConfig, fraction: real, gutterLeft: Num, gutterRight: Num): Value {
    [Text("calc("), Pct(Percentage(fraction)), Text(" - "),
     Number(GutterWidth(c, gutterLeft, gutterRight)), Text("px)")]
  }

  /** The four declarations every column starts with: the width twice, then
      the right and the left margin. */
  function ColumnBase(c: GridConfig, fraction: real, gl: Num, gr: Num): Fragment {
    [Decl("flex-basis", ColumnWidth(c, fraction, gl, gr)),
     Decl("max-width", ColumnWidth(c, fraction, gl, gr)),
     Decl("margin-right", Px(Sub(gr, c.gutterH))),
     Decl("margin-left", Px(gl))]
  }

  /** What a column writes after its base declarations: both margins at
      `getOffset((1 - fraction) / 2)` when centred, the offset otherwise. */
  function ColumnTail(c: GridConfig, fraction: real, offset: real, gl: Num, center: bool): Fragment {
    if center then
      [Decl("margin-left", GetOffset(c, (1.0 - fraction) / 2.0, Undefined)),
       Decl("margin-right", GetOffset(c, (1.0 - fraction) / 2.0, Undefined))]
    else Offset(c, Some(offset), gl)
  }

  /** `column(fraction = 1, offset = 0, gutterLeft = gutterH,
      gutterRight = gutterH, center = false)`. */
  function Column(c: GridConfig, fraction: Option<real>, offset: Option<real>,
                  gutterLeft: Num, gutterRight: Num, center: Option<bool>): (f: Fragment)
    ensures |f| >= 4
    ensures f[0].Decl? && f[0].property == "flex-basis"
    ensures f[1].Decl? && f[1].property == "max-width" && f[1].value == f[0].value
    ensures f[2] == Decl("margin-right", Px(Sub(OrDefault(gutterRight, c.gutterH), c.gutterH)))
    ensures f[3] == Decl("margin-left", Px(OrDefault(gutterLeft, c.gutterH)))
    ensures forall i :: 4 <= i < |f| ==>
              f[i].Decl? && (f[i].property == "margin-left" || f[i].property == "margin-right")
  {
    var fr := fraction.GetOr(1.0);
    var gl := OrDefault(gutterLeft, c.gutterH);
    var gr := OrDefault(gutterRight, c.gutterH);
    ColumnBase(c, fr, gl, gr) + ColumnTail(c, fr, offset.GetOr(0.0), gl, center.GetOr(false))
  }

  /** `stack()`: a full-width column. */
  function Stack(c: GridConfig): (f: Fragment)
    ensures Effective(f, "flex-basis") == Effective(f, "max-width") == Some([Text("100%")])
    ensures Effective(f, "margin-left") == Some(Px(c.gutterH))
    ensures Effective(f, "margin-right") == None
  {
    var f := [Decl("flex-basis", [Text("100%")]),
              Decl("max-width", [Text("100%")]),
              Decl("margin-left", Px(c.gutterH))];
    EffectiveSingle(f, "flex-basis", 0);
    EffectiveSingle(f, "max-width", 1);
    EffectiveSingle(f, "margin-left", 2);
    f
  }

  /** `fullBleed()`: a full-width row with the side gutters cancelled. */
  function FullBleed(c: GridConfig): (f: Fragment)
    ensures Effective(f, "flex-basis") == Some([Text("100%")])
    ensures Effective(f, "margin-left") == Effective(f, "margin-right") == Some(NegPx(c.gutterH))
  {
    var f := [Decl("flex-basis", [Text("100%")]),
              Decl("max-width", [Text("auto")]),
              Decl("margin-left", NegPx(c.gutterH)),
              Decl("margin-right", NegPx(c.gutterH))];
    EffectiveSingle(f, "flex-basis", 0);
    EffectiveSingle(f, "margin-left", 2);
    EffectiveSingle(f, "margin-right", 3);
    f
  }

  /** `center(fraction)`: a centred block `fraction` of the gutter-adjusted width. */
  function Center(c: GridConfig, fraction: real): (f: Fragment)
    ensures Effective(f, "margin") == Some([Text("0 auto")])
    ensures Effective(f, "max-width").Some?
    ensures var w := Effective(f, "max-width").value; Number(c.gutterH) in w && Fraction(fraction) in w
  {
    [Decl("max-width", [Text("calc((100% - "), Number(c.gutterH), Text("px) * "), Fraction(fraction),
                        Text(" - "), Number(c.gutterH), Text("px)")]),
     Decl("margin", [Text("0 auto")])]
  }

  /** `uncenter()`: the declarations that undo `center`. */
  function Uncenter(): (f: Fragment)
    ensures Effective(f, "max-width") == Some([Text("none")])
    ensures Effective(f, "margin") == Some([Text("0")])
  {
    [Decl("max-width", [Text("none")]),
     Decl("margin", [Text("0")])]
  }

  /** `rows()`: a container whose children are stacked blocks. */
  function Rows(c: GridConfig): (f: Fragment)
    ensures DeclaredOnce(f, "margin-left", NegPx(c.gutterH))
    ensures DeclaredOnce(f, "margin-right", NegPx(c.gutterH))
    ensures DeclaredOnce(f, "padding-right", Px(c.gutterH))
    ensures f[|f| - 1].Rule? && f[|f| - 1].selector == [Text("> "), Selector(c.columnSelector)]
  {
    var f := [Decl("display", [Text("block")]),
              Decl("box-sizing", [Text("border-box")]),
              Decl("margin-left", NegPx(c.gutterH)),
              Decl("margin-right", NegPx(c.gutterH)),
              Decl("padding-right", Px(c.gutterH)),
              Rule([Text("> "), Selector(c.columnSelector)],
                   [Decl("box-sizing", [Text("border-box")]),
                    Decl("margin-left", Px(c.gutterH)),
                    Decl("margin-bottom", Px(c.gutterH))])];
    assert f[2].property == "margin-left";
    assert f[3].property == "margin-right";
    assert f[4].property == "padding-right";
    f
  }

  /** The selector of the nested-grid rule inside `columns()`. */
  function NestedGridSelector(c: GridConfig): Value {
    [Text("> "), Selector(c.containerSelector), Text(", "), GridClass]
  }

  /** `columns()`: a flex container whose children are columns, and whose
      nested grids cancel the vertical gutter below them. */
  function Columns(c: GridConfig): (f: Fragment)
    ensures DeclaredOnce(f, "margin-left", NegPx(c.gutterH))
    ensures DeclaredOnce(f, "margin-right", NegPx(c.gutterH))
    ensures DeclaredOnce(f, "padding-right", Px(c.gutterH))
    ensures f[|f| - 1].Rule? && f[|f| - 1].selector == [Text("> "), Selector(c.columnSelector)]
  {
    var f := [Decl("display", [Text("flex")]),
              Decl("flex-wrap", [Text("wrap")]),
              Decl("box-sizing", [Text("border-box")]),
              Decl("margin-left", NegPx(c.gutterH)),
              Decl("margin-right", NegPx(c.gutterH)),
              Decl("padding-right", Px(c.gutterH)),
              Rule([Text("> "), Selector(c.columnSelector)],
                   [Decl("flex", [Text("1 1 0%")]),
                    Decl("box-sizing", [Text("border-box")]),
                    Decl("margin-left", Px(c.gutterH)),
                    Decl("margin-bottom", Px(c.gutterV)),
                    Rule(NestedGridSelector(c), [Decl("margin-bottom", NegPx(c.gutterV))])])];
    assert f[3].property == "margin-left";
    assert f[4].property == "margin-right";
    assert f[5].property == "padding-right";
    f
  }

  /** `inject()`: the `columns()` fragment scoped to the container selector. */
  function Inject(c: GridConfig): (f: Fragment)
    ensures Flatten(f) == Under([Selector(c.containerSelector)], Flatten(Columns(c)))
  {
    [Rule([Selector(c.containerSelector)], Columns(c))]
  }
}
