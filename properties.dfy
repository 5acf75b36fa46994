/** What the grid calculator promises: the gutter cascade, the resolved value
    of each property a column declares, and which stored fields each fragment
    depends on. */
module Properties {
  import opened JsValues
  import opened Css
  import opened Subdivision

  // ---------------------------------------------------------------------
  // Option resolution
  // ---------------------------------------------------------------------

  /** The constructor's worked cases: a single `gutter` seeds both gutters,
      explicit gutters are kept apart, and with no options at all neither
      gutter is set (the default of 10 is filed under `gutter`). */
  lemma ResolveExamples()
    ensures Resolve(SubdivisionOptions(Some(20), None, None, None, None))
            == GridConfig(Int(20), Int(20), ".grid", "*")
    ensures Resolve(SubdivisionOptions(None, Some(20), Some(5), None, None))
            == GridConfig(Int(20), Int(5), ".grid", "*")
    ensures Resolve(SubdivisionOptions(None, None, None, None, None))
            == GridConfig(Undefined, Undefined, ".grid", "*")
  {
  }

  /** Explicit numeric gutters are kept unchanged and independently of each
      other and of `gutter`. */
  lemma ExplicitGuttersKept(o: SubdivisionOptions)
    requires o.gutterH.Some? && o.gutterV.Some?
    ensures Resolve(o).gutterH == Int(o.gutterH.value)
    ensures Resolve(o).gutterV == Int(o.gutterV.value)
  {
  }

  /** The horizontal gutter is undefined exactly when neither `gutterH` nor
      `gutter` is supplied; then the vertical one is too unless given. */
  lemma UndefinedGutter(o: SubdivisionOptions)
    ensures Resolve(o).gutterH == Undefined <==> o.gutterH.None? && o.gutter.None?
    ensures Resolve(o).gutterV == Undefined <==> o.gutterV.None? && o.gutterH.None? && o.gutter.None?
  {
  }

  /** Handing the options object, as the constructor left it, to a second
      constructor gives the same configuration, and leaves it as it was. */
  lemma ResolveNormalized(o: SubdivisionOptions)
    ensures Resolve(Normalize(o)) == Resolve(o)
    ensures Normalize(Normalize(o)) == Normalize(o)
    ensures Normalize(o).gutter == None
  {
  }

  /** Every key the caller supplies wins over the default for that key; the
      defaults apply to the others. */
  lemma OverlayFieldByField(o: SubdivisionOptions)
    ensures Overlay(Defaults, o).containerSelector == Some(o.containerSelector.GetOr(".grid"))
    ensures Overlay(Defaults, o).columnSelector == Some(o.columnSelector.GetOr("*"))
    ensures Overlay(Defaults, o).gutterH == o.gutterH
    ensures Overlay(Defaults, o).gutterV == o.gutterV
    ensures Overlay(Defaults, o).gutter == Some(o.gutter.GetOr(10))
  {
  }

  // ---------------------------------------------------------------------
  // Columns
  // ---------------------------------------------------------------------

  /** The value each of the base declarations gives its property. */
  lemma ColumnBaseEffective(c: GridConfig, fraction: real, gl: Num, gr: Num)
    ensures var b := ColumnBase(c, fraction, gl, gr);
            Effective(b, "flex-basis") == Some(ColumnWidth(c, fraction, gl, gr)) &&
            Effective(b, "max-width") == Some(ColumnWidth(c, fraction, gl, gr)) &&
            Effective(b, "margin-right") == Some(Px(Sub(gr, c.gutterH))) &&
            Effective(b, "margin-left") == Some(Px(gl))
  {
    var b := ColumnBase(c, fraction, gl, gr);
    EffectiveSingle(b, "flex-basis", 0);
    EffectiveSingle(b, "max-width", 1);
    EffectiveSingle(b, "margin-right", 2);
    EffectiveSingle(b, "margin-left", 3);
  }

  /** The branch declares only margins. */
  lemma ColumnTailMarginsOnly(c: GridConfig, fraction: real, offset: real, gl: Num, center: bool, p: string)
    requires p != "margin-left" && p != "margin-right"
    ensures Effective(ColumnTail(c, fraction, offset, gl, center), p) == None
  {
  }

  /** `flex-basis` and `max-width` resolve to the same width,
      `calc(percentage(fraction) - (gutterLeft + gutterRight - gutterH)px)`,
      whichever branch the column takes. */
  lemma ColumnWidths(c: GridConfig, fraction: Option<real>, offset: Option<real>,
                     gutterLeft: Num, gutterRight: Num, center: Option<bool>)
    ensures var f := Column(c, fraction, offset, gutterLeft, gutterRight, center);
            var gl := OrDefault(gutterLeft, c.gutterH);
            var gr := OrDefault(gutterRight, c.gutterH);
            Effective(f, "flex-basis") == Effective(f, "max-width")
            == Some([Text("calc("), Pct(Percentage(fraction.GetOr(1.0))), Text(" - "),
                     Number(Sub(Add(gl, gr), c.gutterH)), Text("px)")])
  {
    var gl := OrDefault(gutterLeft, c.gutterH);
    var gr := OrDefault(gutterRight, c.gutterH);
    var fr := fraction.GetOr(1.0);
    var base := ColumnBase(c, fr, gl, gr);
    var tail := ColumnTail(c, fr, offset.GetOr(0.0), gl, center.GetOr(false));
    ColumnBaseEffective(c, fr, gl, gr);
    ColumnTailMarginsOnly(c, fr, offset.GetOr(0.0), gl, center.GetOr(false), "flex-basis");
    ColumnTailMarginsOnly(c, fr, offset.GetOr(0.0), gl, center.GetOr(false), "max-width");
    EffectiveAppend(base, tail, "flex-basis");
    EffectiveAppend(base, tail, "max-width");
  }

  /** The centring offset is written at `gutterH` and ends the `calc(...)`
      with its own semicolon. */
  lemma CenteredOffsetText(c: GridConfig, fraction: real)
    ensures var m := GetOffset(c, (1.0 - fraction) / 2.0, Undefined);
            Number(c.gutterH) in m && m[|m| - 1] == Text("px);")
  {
    assert GetOffset(c, (1.0 - fraction) / 2.0, Undefined)[3] == Number(c.gutterH);
  }

  /** A centred column: the margins resolve to
      `getOffset((1 - fraction) / 2)` at the horizontal gutter on both sides,
      overriding the base margins, and the values keep `getOffset`'s own
      semicolon, so each declaration ends in a doubled one. */
  lemma ColumnCentered(c: GridConfig, fraction: Option<real>, offset: Option<real>,
                       gutterLeft: Num, gutterRight: Num)
    ensures var f := Column(c, fraction, offset, gutterLeft, gutterRight, Some(true));
            var m := GetOffset(c, (1.0 - fraction.GetOr(1.0)) / 2.0, Undefined);
            Effective(f, "margin-left") == Some(m) && Effective(f, "margin-right") == Some(m)
    ensures var m := GetOffset(c, (1.0 - fraction.GetOr(1.0)) / 2.0, Undefined);
            Number(c.gutterH) in m && m[|m| - 1] == Text("px);")
  {
    CenteredOffsetText(c, fraction.GetOr(1.0));
    var f := Column(c, fraction, offset, gutterLeft, gutterRight, Some(true));
    var m := GetOffset(c, (1.0 - fraction.GetOr(1.0)) / 2.0, Undefined);
    assert |f| == 6 && f[5] == Decl("margin-right", m);
    assert f[..5][4] == Decl("margin-left", m);
  }

  /** A centred column does not depend on the offset argument at all. */
  lemma ColumnCenterIgnoresOffset(c: GridConfig, fraction: Option<real>, o1: Option<real>, o2: Option<real>,
                                  gutterLeft: Num, gutterRight: Num)
    ensures Column(c, fraction, o1, gutterLeft, gutterRight, Some(true))
            == Column(c, fraction, o2, gutterLeft, gutterRight, Some(true))
  {
  }

  /** An uncentred column: `margin-right` is `gutterRight - gutterH`, and
      `margin-left` is the left gutter unless a non-zero offset overrides it
      with `getOffset(offset, gutterLeft)`. */
  lemma ColumnOffsetBranch(c: GridConfig, fraction: Option<real>, offset: Option<real>,
                           gutterLeft: Num, gutterRight: Num, center: Option<bool>)
    requires !center.GetOr(false)
    ensures var f := Column(c, fraction, offset, gutterLeft, gutterRight, center);
            var gl := OrDefault(gutterLeft, c.gutterH);
            var gr := OrDefault(gutterRight, c.gutterH);
            Effective(f, "margin-right") == Some(Px(Sub(gr, c.gutterH))) &&
            Effective(f, "margin-left") == Some(if offset.GetOr(0.0) == 0.0 then Px(gl)
                                                else GetOffset(c, offset.GetOr(0.0), gl))
    ensures (|Column(c, fraction, offset, gutterLeft, gutterRight, center)| == 4) <==> offset.GetOr(0.0) == 0.0
  {
    var gl := OrDefault(gutterLeft, c.gutterH);
    var gr := OrDefault(gutterRight, c.gutterH);
    var fr := fraction.GetOr(1.0);
    var base := ColumnBase(c, fr, gl, gr);
    var tail := ColumnTail(c, fr, offset.GetOr(0.0), gl, false);
    EffectiveAppend(base, tail, "margin-left");
    EffectiveAppend(base, tail, "margin-right");
  }

  /** With the default gutters the column gives up exactly one horizontal
      gutter and has no right margin; `column()` with every default is a full
      width column less one gutter. */
  lemma ColumnDefaultGutters(c: GridConfig, g: int)
    requires c.gutterH == Int(g)
    ensures GutterWidth(c, c.gutterH, c.gutterH) == Int(g)
    ensures Column(c, None, None, Undefined, Undefined, None)
            == [Decl("flex-basis", [Text("calc("), Pct(Percent(false, 100)), Text(" - "), Number(Int(g)), Text("px)")]),
                Decl("max-width", [Text("calc("), Pct(Percent(false, 100)), Text(" - "), Number(Int(g)), Text("px)")]),
                Decl("margin-right", [Number(Int(0)), Text("px")]),
                Decl("margin-left", [Number(Int(g)), Text("px")])]
  {
    assert Percentage(1.0) == Percent(false, 100);
  }

  /** With the default left and right gutters, an uncentred column has a
      right margin of 0px, whatever its fraction and offset. */
  lemma DefaultGuttersNoRightMargin(c: GridConfig, g: int, fraction: Option<real>, offset: Option<real>,
                                    center: Option<bool>)
    requires c.gutterH == Int(g) && !center.GetOr(false)
    ensures Effective(Column(c, fraction, offset, Undefined, Undefined, center), "margin-right")
            == Some(Px(Int(0)))
  {
    ColumnOffsetBranch(c, fraction, offset, Undefined, Undefined, center);
  }

  /** Half a row, centred: both margins are `getOffset(0.25)`. */
  lemma ColumnHalfCentered(c: GridConfig)
    ensures var f := Column(c, Some(0.5), Some(0.0), c.gutterH, c.gutterH, Some(true));
            Effective(f, "margin-left") == Effective(f, "margin-right")
            == Some([Text("calc("), Pct(Percent(false, 25)), Text(" + "), Number(c.gutterH), Text("px);")])
  {
    ColumnCentered(c, Some(0.5), Some(0.0), c.gutterH, c.gutterH);
    assert (1.0 - 0.5) / 2.0 == 0.25;
    assert Percentage(0.25) == Percent(false, 25);
  }

  /** When no horizontal gutter was ever set, a column with default gutters
      computes with `undefined`: the width and the right margin are `NaN`
      and the left margin is `undefined`. */
  lemma ColumnWithoutGutter(c: GridConfig, fraction: Option<real>)
    requires c.gutterH == Undefined
    ensures var f := Column(c, fraction, None, Undefined, Undefined, None);
            f[0].value[3] == Number(NaN) &&
            Effective(f, "margin-right") == Some(Px(NaN)) &&
            Effective(f, "margin-left") == Some(Px(Undefined))
  {
    ColumnOffsetBranch(c, fraction, None, Undefined, Undefined, None);
  }

  // ---------------------------------------------------------------------
  // Fragments over stored fields
  // ---------------------------------------------------------------------

  /** `stack()`, `fullBleed()` and `center(fraction)` read only the horizontal
      gutter; `rows()` reads it and the column selector. */
  lemma FixedFragmentsFrame(c1: GridConfig, c2: GridConfig, fraction: real)
    requires c1.gutterH == c2.gutterH
    ensures Stack(c1) == Stack(c2)
    ensures FullBleed(c1) == FullBleed(c2)
    ensures Center(c1, fraction) == Center(c2, fraction)
    ensures c1.columnSelector == c2.columnSelector ==> Rows(c1) == Rows(c2)
  {
  }

  /** The container of `rows()` and of `columns()` sits one horizontal gutter
      outside the row on each side and pads its right side by one gutter;
      `fullBleed()` uses the same negative side margins. */
  lemma ContainerMargins(c: GridConfig)
    ensures Effective(Rows(c), "margin-left") == Effective(Columns(c), "margin-left") == Some(NegPx(c.gutterH))
    ensures Effective(Rows(c), "margin-right") == Effective(Columns(c), "margin-right") == Some(NegPx(c.gutterH))
    ensures Effective(Rows(c), "padding-right") == Effective(Columns(c), "padding-right") == Some(Px(c.gutterH))
    ensures Effective(FullBleed(c), "margin-left") == Effective(FullBleed(c), "margin-right") == Some(NegPx(c.gutterH))
  {
    RowsMargins(c);
    ColumnsMargins(c);
  }

  /** The side margins and right padding of the `rows()` container. */
  lemma RowsMargins(c: GridConfig)
    ensures Effective(Rows(c), "margin-left") == Effective(Rows(c), "margin-right") == Some(NegPx(c.gutterH))
    ensures Effective(Rows(c), "padding-right") == Some(Px(c.gutterH))
  {
    DeclaredOnceEffective(Rows(c), "margin-left", NegPx(c.gutterH));
    DeclaredOnceEffective(Rows(c), "margin-right", NegPx(c.gutterH));
    DeclaredOnceEffective(Rows(c), "padding-right", Px(c.gutterH));
  }

  /** The side margins and right padding of the `columns()` container. */
  lemma ColumnsMargins(c: GridConfig)
    ensures Effective(Columns(c), "margin-left") == Effective(Columns(c), "margin-right") == Some(NegPx(c.gutterH))
    ensures Effective(Columns(c), "padding-right") == Some(Px(c.gutterH))
  {
    DeclaredOnceEffective(Columns(c), "margin-left", NegPx(c.gutterH));
    DeclaredOnceEffective(Columns(c), "margin-right", NegPx(c.gutterH));
    DeclaredOnceEffective(Columns(c), "padding-right", Px(c.gutterH));
  }

  /** Both containers give every child matched by the column selector a left
      gutter of `gutterH`, which makes up the container's negative margin; the
      children's `margin-bottom` is `gutterH` under `rows()` but `gutterV`
      under `columns()`. */
  lemma ChildGutters(c: GridConfig)
    ensures Rows(c)[5].Rule? && Columns(c)[6].Rule?
    ensures Rows(c)[5].selector == Columns(c)[6].selector == [Text("> "), Selector(c.columnSelector)]
    ensures Effective(Rows(c)[5].body, "margin-left") == Effective(Columns(c)[6].body, "margin-left")
            == Some(Px(c.gutterH))
    ensures Effective(Rows(c)[5].body, "margin-bottom") == Some(Px(c.gutterH))
    ensures Effective(Columns(c)[6].body, "margin-bottom") == Some(Px(c.gutterV))
  {
    RowsChildGutters(c);
    ColumnsChildGutters(c);
  }

  /** The child rule of `rows()`: both gutters are `gutterH`. */
  lemma RowsChildGutters(c: GridConfig)
    ensures Rows(c)[5].Rule?
    ensures Effective(Rows(c)[5].body, "margin-left") == Some(Px(c.gutterH))
    ensures Effective(Rows(c)[5].body, "margin-bottom") == Some(Px(c.gutterH))
  {
    var rb := Rows(c)[5].body;
    EffectiveSingle(rb, "margin-left", 1);
    EffectiveSingle(rb, "margin-bottom", 2);
  }

  /** The child rule of `columns()`: the left gutter is `gutterH`, the bottom
      one `gutterV`. */
  lemma ColumnsChildGutters(c: GridConfig)
    ensures Columns(c)[6].Rule?
    ensures Effective(Columns(c)[6].body, "margin-left") == Some(Px(c.gutterH))
    ensures Effective(Columns(c)[6].body, "margin-bottom") == Some(Px(c.gutterV))
  {
    var kb := Columns(c)[6].body;
    EffectiveSingle(kb, "margin-left", 2);
    EffectiveSingle(kb, "margin-bottom", 3);
  }

  /** The declarations inside the child rule of `columns()`, seen from that
      rule. */
  lemma ColumnsChildEntries(c: GridConfig)
    ensures Columns(c)[6].Rule?
    ensures Flatten(Columns(c)[6].body) ==
            [Entry([], "flex", [Text("1 1 0%")]),
             Entry([], "box-sizing", [Text("border-box")]),
             Entry([], "margin-left", Px(c.gutterH)),
             Entry([], "margin-bottom", Px(c.gutterV)),
             Entry([NestedGridSelector(c)], "margin-bottom", NegPx(c.gutterV))]
  {
    var nested := [Decl("margin-bottom", NegPx(c.gutterV))];
    var inner := [Decl("flex", [Text("1 1 0%")]),
                  Decl("box-sizing", [Text("border-box")]),
                  Decl("margin-left", Px(c.gutterH)),
                  Decl("margin-bottom", Px(c.gutterV))];
    FlattenDecls(nested);
    FlattenDecls(inner);
    FlattenRule(NestedGridSelector(c), nested);
    FlattenAppend(inner, [Rule(NestedGridSelector(c), nested)]);
    assert Flatten(inner) ==
           [Entry([], "flex", [Text("1 1 0%")]),
            Entry([], "box-sizing", [Text("border-box")]),
            Entry([], "margin-left", Px(c.gutterH)),
            Entry([], "margin-bottom", Px(c.gutterV))];
    assert [NestedGridSelector(c)] + [] == [NestedGridSelector(c)];
    assert Under(NestedGridSelector(c), Flatten(nested))
           == [Entry([NestedGridSelector(c)], "margin-bottom", NegPx(c.gutterV))];
    assert Columns(c)[6].body == inner + [Rule(NestedGridSelector(c), nested)];
  }

  /** Every declaration of `columns()`, in order, with its nesting. */
  lemma ColumnsEntries(c: GridConfig)
    ensures var child := [Text("> "), Selector(c.columnSelector)];
            Flatten(Columns(c)) ==
            [Entry([], "display", [Text("flex")]),
             Entry([], "flex-wrap", [Text("wrap")]),
             Entry([], "box-sizing", [Text("border-box")]),
             Entry([], "margin-left", NegPx(c.gutterH)),
             Entry([], "margin-right", NegPx(c.gutterH)),
             Entry([], "padding-right", Px(c.gutterH)),
             Entry([child], "flex", [Text("1 1 0%")]),
             Entry([child], "box-sizing", [Text("border-box")]),
             Entry([child], "margin-left", Px(c.gutterH)),
             Entry([child], "margin-bottom", Px(c.gutterV)),
             Entry([child, NestedGridSelector(c)], "margin-bottom", NegPx(c.gutterV))]
  {
    var child := [Text("> "), Selector(c.columnSelector)];
    var k := Columns(c);
    var outer := k[..6];
    ColumnsChildEntries(c);
    FlattenDecls(outer);
    FlattenRule(child, k[6].body);
    assert [child] + [] == [child];
    assert [child] + [NestedGridSelector(c)] == [child, NestedGridSelector(c)];
    assert k == outer + [Rule(child, k[6].body)];
    FlattenAppend(outer, [Rule(child, k[6].body)]);
  }

  /** `columns()` uses the vertical gutter only for the children's
      `margin-bottom` and the nested grids' negative `margin-bottom`:
      changing it changes no other declaration. */
  lemma ColumnsGutterVOnlyBottoms(c: GridConfig, v: Num)
    ensures var e1 := Flatten(Columns(c));
            var e2 := Flatten(Columns(c.(gutterV := v)));
            |e1| == |e2| &&
            forall i :: 0 <= i < |e1| ==>
              e1[i].path == e2[i].path && e1[i].property == e2[i].property &&
              (e1[i].value != e2[i].value ==> e1[i].property == "margin-bottom" && e1[i].path != [])
  {
    var c2 := c.(gutterV := v);
    assert NestedGridSelector(c2) == NestedGridSelector(c);
    ColumnsEntries(c);
    ColumnsEntries(c2);
  }

  /** A pixel value mentions a number exactly when that is its number. */
  lemma NumberInPx(x: Num, y: Num)
    ensures Number(x) in Px(y) <==> x == y
    ensures Number(x) in NegPx(y) <==> x == y
  {
    assert Px(y)[0] == Number(y);
    assert NegPx(y)[1] == Number(y);
  }

  /** When the two gutters differ, the vertical one appears in exactly the
      two nested `margin-bottom` declarations of `columns()`. */
  lemma ColumnsGutterVPlaces(c: GridConfig)
    requires c.gutterV != c.gutterH
    ensures forall e :: e in Flatten(Columns(c)) ==>
              (Number(c.gutterV) in e.value <==> e.property == "margin-bottom")
  {
    ColumnsEntries(c);
    NumberInPx(c.gutterV, c.gutterH);
    NumberInPx(c.gutterV, c.gutterV);
  }

  /** `inject()` holds exactly the declarations of `columns()`, each one
      nested one level deeper, under the container selector. */
  lemma InjectEntries(c: GridConfig)
    ensures var inner := Flatten(Columns(c));
            var outer := Flatten(Inject(c));
            |outer| == |inner| &&
            forall i :: 0 <= i < |inner| ==>
              outer[i].path == [[Selector(c.containerSelector)]] + inner[i].path &&
              outer[i].property == inner[i].property && outer[i].value == inner[i].value
  {
  }

  // ---------------------------------------------------------------------
  // Fragments used together
  // ---------------------------------------------------------------------

  /** `uncenter()` after `center(fraction)` undoes both of its declarations. */
  lemma UncenterUndoesCenter(c: GridConfig, fraction: real)
    ensures Effective(Center(c, fraction) + Uncenter(), "max-width") == Some([Text("none")])
    ensures Effective(Center(c, fraction) + Uncenter(), "margin") == Some([Text("0")])
  {
    EffectiveAppend(Center(c, fraction), Uncenter(), "max-width");
    EffectiveAppend(Center(c, fraction), Uncenter(), "margin");
  }

  /** `stack()` after a column makes it full width with the left gutter, but
      leaves the column's `margin-right` in force. */
  lemma StackOverColumn(c: GridConfig, fraction: Option<real>, offset: Option<real>,
                        gutterLeft: Num, gutterRight: Num, center: Option<bool>)
    ensures var col := Column(c, fraction, offset, gutterLeft, gutterRight, center);
            Effective(col + Stack(c), "flex-basis") == Some([Text("100%")]) &&
            Effective(col + Stack(c), "max-width") == Some([Text("100%")]) &&
            Effective(col + Stack(c), "margin-left") == Some(Px(c.gutterH)) &&
            Effective(col + Stack(c), "margin-right") == Effective(col, "margin-right")
  {
    var col := Column(c, fraction, offset, gutterLeft, gutterRight, center);
    EffectiveAppend(col, Stack(c), "flex-basis");
    EffectiveAppend(col, Stack(c), "max-width");
    EffectiveAppend(col, Stack(c), "margin-left");
    EffectiveAppend(col, Stack(c), "margin-right");
  }
}
