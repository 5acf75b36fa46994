# Subdivision grid calculator, modelled in Dafny

Subdivision is a small helper class for a component styling system. An instance
holds a horizontal gutter, a vertical gutter, a container selector and a column
selector. Its members build CSS fragments for a flexbox grid: columns sized by a
fraction of the row, offsets, centring, stacking, full-bleed rows, and the
container rules.

This project models that class:

- `js_values.dfy` (module `JsValues`): optional values for absent keys and
  omitted arguments. It also has the pixel quantities the class computes with
  (`Num`, which can be a whole number, `undefined` or `NaN`) and
  `percentage`'s integer-percent text.
- `css.dfy` (module `Css`): a fragment is a sequence of declarations and nested
  rules. A declaration's value is a sequence of template pieces: fixed text, or
  an interpolated number, percentage, fraction, selector, or the Grid
  component's class.
  - `Effective` gives the value a property ends up with in a block. That is the
    value of the property's last declaration, because a later declaration
    overrides an earlier one.
  - `Flatten` lists every declaration together with the selectors of the rules
    it is nested in.
  - `DeclaredOnce` says a property has exactly one top-level declaration in a
    block, with a given value; that value is then the effective one.
- `subdivision.dfy` (module `Subdivision`):
  - how the constructor resolves options, as a function (`Resolve`) and as the
    constructor itself, which changes the caller's options object in place;
  - one function per fragment member, each over the resolved configuration.
- `properties.dfy` (module `Properties`): lemmas about those members.

Choices that follow the code:

- In the model, with neither `gutterH` nor `gutter` supplied, the resolved
  horizontal gutter is `undefined` (`UndefinedGutter`). The defaults give 10
  to the key `gutter`, and the constructor only copies `gutter` into
  `gutterH` before the merge with the defaults, so that 10 never reaches
  `gutterH`. Columns built from such a configuration compute with
  `undefined` and `NaN` (`ColumnWithoutGutter`). In JavaScript itself the
  constructor throws before any column can be built; see the constructor
  line under "## Left out".
- `getOffset` returns text that already ends in `;`. The callers at
  packages/styled-components/src/index.ts:70-71 and :79 write `;` after it, so
  those declarations end in `;;`. `GetOffset`'s value keeps that semicolon. The
  declaration that holds it adds the second one when written out as
  `property: value;`.
- `-${gutterH}px` is a literal minus in front of the interpolated number
  (`NegPx`). A negative gutter therefore gives two minus signs.
- An omitted JavaScript argument is `None`, or `Undefined` for a gutter
  argument. Either one selects the default parameter value. `NaN` and numbers
  are kept.

## Model

| member | source | states |
|---|---|---|
| `JsValues.Percentage` | packages/styled-components/src/index.ts:17 | the sign is `-` exactly for a negative fraction; the magnitude lies within half a unit of `|d * 100|`, with a tie going to the larger integer |
| `JsValues.PercentageIsNearest` | packages/styled-components/src/index.ts:17 | no whole number is nearer to `|d * 100|` than the written magnitude, and on a tie the written one is the larger |
| `JsValues.PercentageExamples` | packages/styled-components/src/index.ts:17 | 0.3333 gives 33%, 0.125 gives 13%, 1 gives 100%, 0.25 gives 25%, and -0.004 gives -0% |
| `Subdivision.Resolve` | packages/styled-components/src/index.ts:29-41 | `gutterH` is the caller's `gutterH`, else the caller's `gutter`, else undefined; `gutterV` is the caller's `gutterV`, else the resolved `gutterH`; the selectors are the caller's, else `.grid` and `*` |
| `Subdivision.Options.constructor` | packages/styled-components/src/index.ts:3-9 | the options object holds exactly the keys it is given |
| `Subdivision.Subdivision.constructor` | packages/styled-components/src/index.ts:25-41 | the stored fields are `Resolve` of the options as passed; the `gutter` accessor then returns the resolved `gutterH`; the caller's object afterwards has `gutter` deleted and `gutterH`/`gutterV` filled in by the cascade |
| `Subdivision.GetOffset` | packages/styled-components/src/index.ts:165-167 | the value ends in a semicolon; it contains `percentage(offset)` and the gutter argument, which defaults to `gutterH` when undefined |
| `Subdivision.Offset` | packages/styled-components/src/index.ts:78-80 | the fragment is empty exactly when the offset is 0 (an omitted offset counts as 0); otherwise it is one `margin-left` whose value is `getOffset(offset, gutter)` |
| `Subdivision.Column` | packages/styled-components/src/index.ts:51-76 | every column starts with `flex-basis` and `max-width` carrying the same value, then `margin-right: (gutterRight - gutterH)px` and `margin-left: gutterLeft px` with the gutters defaulted to `gutterH`; whatever follows them is a `margin-left` or `margin-right` declaration |
| `Subdivision.Stack` | packages/styled-components/src/index.ts:82-88 | `flex-basis` and `max-width` end up `100%` and `margin-left` `gutterH` px; `margin-right` is not declared |
| `Subdivision.FullBleed` | packages/styled-components/src/index.ts:90-97 | `flex-basis` ends up `100%`, and both side margins end up minus `gutterH` px |
| `Subdivision.Center` | packages/styled-components/src/index.ts:99-106 | `margin` ends up `0 auto`; `max-width` is declared, and its value mentions `gutterH` and the fraction |
| `Subdivision.Uncenter` | packages/styled-components/src/index.ts:108-113 | a constant fragment that sets `max-width` to `none` and `margin` to `0` |
| `Subdivision.Inject` | packages/styled-components/src/index.ts:43-49 | its declarations are those of `columns()`, each nested under a rule for `containerSelector` |
| `Properties.ResolveExamples` | packages/styled-components/src/index.ts:29-41 | `{gutter: 20}` gives both gutters 20; `{gutterH: 20, gutterV: 5}` keeps both; `{}` leaves both undefined, with selectors `.grid` and `*` |
| `Properties.ExplicitGuttersKept` | packages/styled-components/src/index.ts:33-38 | explicit numeric `gutterH` and `gutterV` are kept unchanged, independently of each other and of `gutter` |
| `Properties.UndefinedGutter` | packages/styled-components/src/index.ts:30-37 | `gutterH` is undefined exactly when neither `gutterH` nor `gutter` is supplied; `gutterV` is undefined exactly when, in addition, `gutterV` is not supplied |
| `Properties.ResolveNormalized` | packages/styled-components/src/index.ts:30-38 | running the cascade again on the object the constructor changed gives the same configuration, and leaves the object as it is; `gutter` is gone from it |
| `Properties.OverlayFieldByField` | packages/styled-components/src/index.ts:11-15 | in the merge over the defaults, each key the caller supplies wins, and the defaults `.grid`, `*` and `gutter: 10` fill in the other keys; `gutterH` and `gutterV` get no default |
| `Properties.ColumnBaseEffective` | packages/styled-components/src/index.ts:61-65 | the base declarations give `flex-basis` and `max-width` the width, `margin-right` `gutterRight - gutterH` px and `margin-left` `gutterLeft` px |
| `Properties.ColumnTailMarginsOnly` | packages/styled-components/src/index.ts:67-74 | the branch declares nothing but `margin-left` and `margin-right` |
| `Properties.ColumnWidths` | packages/styled-components/src/index.ts:58-62 | in every branch, `flex-basis` and `max-width` resolve to the same `calc(percentage(fraction) - (gutterLeft + gutterRight - gutterH)px)` |
| `Properties.ColumnCentered` | packages/styled-components/src/index.ts:67-72 | a centred column's margins both resolve to `getOffset((1 - fraction) / 2)` at `gutterH`, overriding the base margins, and that value ends in its own `;` |
| `Properties.ColumnCenterIgnoresOffset` | packages/styled-components/src/index.ts:67-73 | a centred column is the same whatever offset is passed |
| `Properties.ColumnOffsetBranch` | packages/styled-components/src/index.ts:64-73 | an uncentred column's `margin-right` is `gutterRight - gutterH` px; its `margin-left` is `gutterLeft` px when the offset is 0 and `getOffset(offset, gutterLeft)` otherwise; it adds a declaration to the base exactly when the offset is non-zero |
| `Properties.ColumnDefaultGutters` | packages/styled-components/src/index.ts:51-65 | with the default gutters the gutter width is `gutterH`; `column()` with every default is `calc(100% - gutterH px)` wide, with `margin-right: 0px` and `margin-left: gutterH px` |
| `Properties.DefaultGuttersNoRightMargin` | packages/styled-components/src/index.ts:51-73 | an uncentred column with a numeric `gutterH` and both gutters left at their defaults ends with `margin-right: 0px` |
| `Properties.ColumnHalfCentered` | packages/styled-components/src/index.ts:67-72 | `column(0.5, 0, gutterH, gutterH, true)` has both margins equal to `calc(25% + gutterH px);` |
| `Properties.ColumnWithoutGutter` | packages/styled-components/src/index.ts:51-65 | with an undefined `gutterH` and default gutters, the width carries `NaN`, `margin-right` is `NaN` px and `margin-left` is `undefined` px |
| `Properties.FixedFragmentsFrame` | packages/styled-components/src/index.ts:82-131 | `stack`, `fullBleed` and `center` depend only on `gutterH`; `rows` depends only on `gutterH` and `columnSelector` |
| `Subdivision.Rows` | packages/styled-components/src/index.ts:115-131 | the container declares `margin-left` and `margin-right` exactly once each, as minus `gutterH` px, and `padding-right` exactly once, as `gutterH` px; its last item is the rule for `> columnSelector` |
| `Subdivision.Columns` | packages/styled-components/src/index.ts:133-155 | the container declares `margin-left` and `margin-right` exactly once each, as minus `gutterH` px, and `padding-right` exactly once, as `gutterH` px; its last item is the rule for `> columnSelector` |
| `Properties.RowsMargins` | packages/styled-components/src/index.ts:115-131 | the `rows()` container ends with `margin-left` and `margin-right` of minus `gutterH` px and `padding-right` of `gutterH` px |
| `Properties.ColumnsMargins` | packages/styled-components/src/index.ts:133-155 | the `columns()` container ends with `margin-left` and `margin-right` of minus `gutterH` px and `padding-right` of `gutterH` px |
| `Properties.ContainerMargins` | packages/styled-components/src/index.ts:90-141 | `rows()` and `columns()` give the container `margin-left` and `margin-right` of minus `gutterH` px and `padding-right` of `gutterH` px; `fullBleed()` uses the same negative side margins |
| `Properties.ChildGutters` | packages/styled-components/src/index.ts:124-148 | both containers target `> columnSelector` and give those children `margin-left: gutterH px`; the children's `margin-bottom` is `gutterH` under `rows()` and `gutterV` under `columns()` |
| `Properties.ColumnsChildEntries` | packages/styled-components/src/index.ts:143-153 | the child rule of `columns()` holds `flex`, `box-sizing`, `margin-left: gutterH px` and `margin-bottom: gutterV px`, then the nested-grid rule with `margin-bottom: -gutterV px` |
| `Properties.ColumnsEntries` | packages/styled-components/src/index.ts:133-155 | the eleven declarations of `columns()` in document order, with the child rule and the nested-grid rule they sit in |
| `Properties.ColumnsGutterVOnlyBottoms` | packages/styled-components/src/index.ts:143-152 | changing `gutterV` changes only the `margin-bottom` declarations inside the nested rules of `columns()` |
| `Properties.ColumnsGutterVPlaces` | packages/styled-components/src/index.ts:148-151 | when the gutters differ, a declaration of `columns()` mentions `gutterV` exactly when it is a `margin-bottom` |
| `Properties.InjectEntries` | packages/styled-components/src/index.ts:43-49 | `inject()` has exactly the declarations of `columns()`, with the same properties and values, one level deeper under `containerSelector` |
| `Properties.UncenterUndoesCenter` | packages/styled-components/src/index.ts:99-113 | `uncenter()` written after `center(fraction)` overrides both of its declarations |
| `Properties.StackOverColumn` | packages/styled-components/src/index.ts:82-88 | `stack()` written after any column makes `flex-basis` and `max-width` 100% and `margin-left` `gutterH` px, and leaves the column's `margin-right` as it was |

## Left out

- `Grid` and `Centered` (packages/styled-components/src/index.ts:157-163) are
  styled-components objects whose class names are generated at run time. The
  `${this.Grid}` selector in `columns()` is the opaque token `GridClass`.
- Subdivision.Subdivision.constructor: the model builds the instance as if
  the merge skipped the `gutter` key. In JavaScript, `Object.assign(this,
  defaults, options)` (packages/styled-components/src/index.ts:40) copies
  `defaults.gutter` (:12) onto the instance, where `gutter` is an accessor
  with no setter (:25-27). The assignment fails there, and `Object.assign`
  then throws a `TypeError`. By that point the caller's object has already
  been changed (:31-37). The model does not represent the exception. It
  states what the four stored fields would be and how the caller's object
  is left.
- JavaScript object-model details. Object.assign can copy an explicit
  `undefined`; the model treats an explicit `undefined` as an absent key.
  Class-field initialisers (`column`, `Grid`) run before the constructor
  body; the model ignores that ordering.
- Percentage: the product `d * 100` is exact rational arithmetic here, not
  binary floating point, so binary rounding edge cases are not modelled.
  Magnitudes of 10^21 per cent and above, which JavaScript writes in exponent
  notation, are written here as plain digits.
- Gutters are whole numbers of pixels. Gutters that are not whole numbers, and
  the text JavaScript writes for them, are not modelled. The fraction passed
  to `center` is kept as a number token, so its decimal text is not modelled
  either. Dafny integers are exact and unbounded, while JavaScript numbers are
  doubles, so three differences follow. Above 2^53 the gutter sums and
  differences at packages/styled-components/src/index.ts:58 and :64 round in
  JavaScript but not here. From 10^21 up JavaScript writes an interpolated
  gutter in exponent notation. A `gutterH` or `gutterV` of `NaN` or
  `Infinity` passes the `typeof` tests at :33 and :36 and is kept, and a
  fraction can be `NaN` or infinite too; neither `Option<int>` nor `real`
  can hold those values.
- Whitespace and indentation of the template literals. Fragments are compared
  as sequences of declarations and rules.
- How a browser interprets the emitted `calc()` text. Out-of-range fractions
  and negative gutters are passed through unchanged, as in the source.
