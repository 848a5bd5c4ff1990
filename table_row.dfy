/** The Bootstrap-table row renderer: turns one data row and the grid's
    column definitions into one `<tr>...</tr>` fragment. For every visible
    column it substitutes replace-values, translates, collects CSS from the
    column type and the applying styles, renders action links and the
    row-click link, and emits a `<td>` with its non-empty attributes.

    The collaborators whose code is not part of this model (the translator,
    the styles' applicability predicates, the URL view helper, `print_r`,
    `Action::toHtml` and `Action::getLinkReplaced`) are uninterpreted
    functions carried by the values below. */
module TableRow {
  import opened Common

  /** A cell value as the data source hands it over: a scalar, kept as its
      string form, a PHP array, or `null`. */
  datatype Cell = Text(text: string) | Items(entries: seq<Entry>) | Null

  /** One key/value pair of a PHP array, in array order. */
  datatype Entry = Entry(key: string, item: Cell)

  /** A data row: column unique id to raw value. */
  type Row = map<string, Cell>

  /** The translation service's `translate(string): string`. */
  type Translator = string -> string

  /** `$row[$id]`; a missing key reads as `null`. */
  function ValueAt(row: Row, id: string): Cell
  {
    if id in row then row[id] else Null
  }

  /** A value used in string concatenation: PHP turns an array into "Array"
      and `null` into ''. */
  function AsString(c: Cell): string
  {
    match c
    case Text(s) => s
    case Items(_) => "Array"
    case Null => ""
  }

  /** PHP truthiness of a string. */
  predicate Truthy(s: string)
  {
    s != "" && s != "0"
  }

  /** The style classes the renderer knows; `Undefined` is any other class. */
  datatype StyleVariant =
    | Bold
    | Italic
    | Color(rgbHex: string)
    | BackgroundColor(rgbHex: string)
    | Align(alignment: string)
    | Strikethrough
    | CssClass(className: string)
    | Html
    | Undefined(className: string)

  /** A style and its `isApply(row)` predicate. */
  datatype Style = Style(variant: StyleVariant, isApply: Row -> bool)

  /** An action of an action column, with its `isDisplayed(row)` predicate. */
  datatype Action = Action(
    title: string,
    route: string,
    routeParams: map<string, string>,
    link: string,
    isDisplayed: Row -> bool)

  datatype ColumnType = Number | PhpArray | OtherType

  /** The column classes the renderer tells apart. */
  datatype ColumnKind = PlainColumn | ActionColumn(actions: seq<Action>) | SelectColumn

  datatype Column = Column(
    uniqueId: string,
    kind: ColumnKind,
    colType: ColumnType,
    hide: bool,
    hidden: bool,
    hasReplaceValues: bool,
    replaceValues: map<string, string>,
    notReplacedGetEmpty: bool,
    translationEnabled: bool,
    rowClickEnabled: bool,
    styles: seq<Style>)

  /** The view-side collaborators: `view->url`, `print_r($v, true)`,
      `Action::toHtml` and `Action::getLinkReplaced`. */
  datatype View = View(
    url: (string, map<string, string>) -> string,
    printR: Cell -> string,
    toHtml: (Action, Row, Option<Translator>) -> string,
    linkReplaced: (Action, Row) -> string)

  /** Why rendering a row throws: an applying style of an unknown class
      (`InvalidArgumentException`); a nested array used as a replace-map
      key in `isset` (a `TypeError`, illegal offset type); `null` handed to
      `translate(string)` (a `TypeError`); or a cell whose value is an
      array or `null` when it reaches `getTd(string ...)` (a `TypeError`). */
  datatype RenderError =
    | UndefinedStyle(className: string)
    | IllegalOffset(columnId: string)
    | NullTranslated(columnId: string)
    | NotAString(columnId: string)

  // ---------------------------------------------------------------------
  // Translation and replacement

  /** `translate`: the identity when no translator is set. */
  function Translate(translator: Option<Translator>, message: string): (r: string)
    ensures translator.None? ==> r == message
  {
    match translator
    case None => message
    case Some(t) => t(message)
  }

  /** The key `isset($replaceValues[$v])` looks up: a scalar's own string,
      '' for `null`; an array is no key. */
  function ReplaceKey(v: Cell): Option<string>
  {
    match v
    case Text(s) => Some(s)
    case Null => Some("")
    case Items(_) => None
  }

  /** Replacement of one value: the mapped entry, else '' when
      "not-replaced-get-empty" is set, else the value itself. */
  function ReplaceItem(col: Column, v: Cell): Cell
  {
    var key := ReplaceKey(v);
    if key.Some? && key.value in col.replaceValues then Text(col.replaceValues[key.value])
    else if col.notReplacedGetEmpty then Text("")
    else v
  }

  /** The array after the by-reference replace loop over its entries;
      `None` when an entry is itself an array, which `isset` refuses as a
      key. */
  function ReplaceEntries(col: Column, es: seq<Entry>): Option<seq<Entry>>
  {
    if |es| == 0 then Some([])
    else if es[0].item.Items? then None
    else
      match ReplaceEntries(col, es[1..])
      case None => None
      case Some(rest) => Some([Entry(es[0].key, ReplaceItem(col, es[0].item))] + rest)
  }

  /** The replace loop fails exactly when some entry is an array; otherwise
      it keeps the array's length and keys and rewrites each entry on its
      own. */
  lemma {:induction false} ReplaceEntriesAt(col: Column, es: seq<Entry>)
    ensures ReplaceEntries(col, es).None? <==> exists k :: 0 <= k < |es| && es[k].item.Items?
    ensures ReplaceEntries(col, es).Some? ==>
      && |ReplaceEntries(col, es).value| == |es|
      && forall k :: 0 <= k < |es| ==> ReplaceEntries(col, es).value[k] == Entry(es[k].key, ReplaceItem(col, es[k].item))
  {
    if |es| > 0 {
      ReplaceEntriesAt(col, es[1..]);
      if exists k :: 0 <= k < |es[1..]| && es[1..][k].item.Items? {
        var k :| 0 <= k < |es[1..]| && es[1..][k].item.Items?;
        assert es[k + 1].item.Items?;
      }
      if exists k :: 0 <= k < |es| && es[k].item.Items? {
        var k :| 0 <= k < |es| && es[k].item.Items?;
        if k > 0 {
          assert es[1..][k - 1].item.Items?;
        }
      }
    }
  }

  /** The array after the by-reference translate loop: nested arrays are
      skipped, scalars translated; `None` when an entry is `null`, which
      `translate(string)` refuses. */
  function TranslateEntries(translator: Option<Translator>, es: seq<Entry>): Option<seq<Entry>>
  {
    if |es| == 0 then Some([])
    else if es[0].item.Null? then None
    else
      var item := if es[0].item.Text? then Text(Translate(translator, es[0].item.text)) else es[0].item;
      match TranslateEntries(translator, es[1..])
      case None => None
      case Some(rest) => Some([Entry(es[0].key, item)] + rest)
  }

  /** The translate loop fails exactly when some entry is `null`; otherwise
      it keeps length and keys, translates scalars and leaves nested
      arrays as they are. */
  lemma {:induction false} TranslateEntriesAt(translator: Option<Translator>, es: seq<Entry>)
    ensures TranslateEntries(translator, es).None? <==> exists k :: 0 <= k < |es| && es[k].item.Null?
    ensures TranslateEntries(translator, es).Some? ==>
      && |TranslateEntries(translator, es).value| == |es|
      && forall k :: 0 <= k < |es| ==>
           TranslateEntries(translator, es).value[k]
             == Entry(es[k].key, if es[k].item.Text? then Text(Translate(translator, es[k].item.text)) else es[k].item)
  {
    if |es| > 0 {
      TranslateEntriesAt(translator, es[1..]);
      if exists k :: 0 <= k < |es[1..]| && es[1..][k].item.Null? {
        var k :| 0 <= k < |es[1..]| && es[1..][k].item.Null?;
        assert es[k + 1].item.Null?;
      }
      if exists k :: 0 <= k < |es| && es[k].item.Null? {
        var k :| 0 <= k < |es| && es[k].item.Null?;
        if k > 0 {
          assert es[1..][k - 1].item.Null?;
        }
      }
    }
  }

  /** The value after the replace step, or the `TypeError` of a nested
      array used as a key. */
  function Replaced(col: Column, v: Cell): Result<Cell, RenderError>
  {
    if !col.hasReplaceValues then Success(v)
    else
      match v
      case Items(es) =>
        (match ReplaceEntries(col, es)
         case None => Failure(IllegalOffset(col.uniqueId))
         case Some(replaced) => Success(Items(replaced)))
      case _ => Success(ReplaceItem(col, v))
  }

  /** The value after the translation step, or the `TypeError` of a `null`. */
  function Translated(translator: Option<Translator>, col: Column, v: Cell): Result<Cell, RenderError>
  {
    if !col.translationEnabled then Success(v)
    else
      match v
      case Text(s) => Success(Text(Translate(translator, s)))
      case Null => Failure(NullTranslated(col.uniqueId))
      case Items(es) =>
        match TranslateEntries(translator, es)
        case None => Failure(NullTranslated(col.uniqueId))
        case Some(translated) => Success(Items(translated))
  }

  /** The column's value after replacement and translation. */
  function CellValue(translator: Option<Translator>, row: Row, col: Column): Result<Cell, RenderError>
  {
    match Replaced(col, ValueAt(row, col.uniqueId))
    case Failure(e) => Failure(e)
    case Success(v) => Translated(translator, col, v)
  }

  /** A scalar (or `null`, keyed as '') in the replace map becomes its entry;
      one outside it becomes '' under "not-replaced-get-empty" and stays as
      it is otherwise. */
  lemma ReplacedScalar(col: Column, v: Cell)
    requires col.hasReplaceValues && !v.Items?
    ensures var key := if v.Text? then v.text else "";
      && (key in col.replaceValues ==> Replaced(col, v) == Success(Text(col.replaceValues[key])))
      && (key !in col.replaceValues && col.notReplacedGetEmpty ==> Replaced(col, v) == Success(Text("")))
      && (key !in col.replaceValues && !col.notReplacedGetEmpty ==> Replaced(col, v) == Success(v))
  {
  }

  /** An array value is replaced entry by entry under the scalar rule; its
      length and keys are kept. A nested array entry makes the lookup
      throw. */
  lemma ReplacedArray(col: Column, es: seq<Entry>)
    requires col.hasReplaceValues
    ensures Replaced(col, Items(es)).Failure? <==> exists k :: 0 <= k < |es| && es[k].item.Items?
    ensures Replaced(col, Items(es)).Failure? ==> Replaced(col, Items(es)).error == IllegalOffset(col.uniqueId)
    ensures Replaced(col, Items(es)).Success? ==>
      && Replaced(col, Items(es)).value.Items?
      && |Replaced(col, Items(es)).value.entries| == |es|
      && (forall k :: 0 <= k < |es| ==> Replaced(col, Items(es)).value.entries[k].key == es[k].key)
      && (forall k :: 0 <= k < |es| ==>
            && Replaced(col, es[k].item).Success?
            && Replaced(col, Items(es)).value.entries[k].item == Replaced(col, es[k].item).value)
  {
    ReplaceEntriesAt(col, es);
  }

  /** Translating an array translates its top-level scalars and leaves
      nested arrays as they are; length and keys are kept. A `null` entry,
      like a `null` value, makes translation throw. */
  lemma TranslatedArray(translator: Option<Translator>, col: Column, es: seq<Entry>)
    requires col.translationEnabled
    ensures Translated(translator, col, Items(es)).Failure? <==> exists k :: 0 <= k < |es| && es[k].item.Null?
    ensures Translated(translator, col, Null) == Failure(NullTranslated(col.uniqueId))
    ensures Translated(translator, col, Items(es)).Success? ==>
      && Translated(translator, col, Items(es)).value.Items?
      && |Translated(translator, col, Items(es)).value.entries| == |es|
      && (forall k :: 0 <= k < |es| ==> Translated(translator, col, Items(es)).value.entries[k].key == es[k].key)
      && (forall k :: 0 <= k < |es| && es[k].item.Text? ==>
            Translated(translator, col, Items(es)).value.entries[k].item == Text(Translate(translator, es[k].item.text)))
      && (forall k :: 0 <= k < |es| && es[k].item.Items? ==>
            Translated(translator, col, Items(es)).value.entries[k].item == es[k].item)
  {
    TranslateEntriesAt(translator, es);
  }

  /** Without a translator, the translation step changes no value; it can
      still throw on a `null`. */
  lemma NoTranslatorIsIdentity(col: Column, v: Cell)
    ensures Translated(None, col, v).Success? ==> Translated(None, col, v).value == v
  {
    if col.translationEnabled && v.Items? && TranslateEntries(None, v.entries).Some? {
      TranslateEntriesAt(None, v.entries);
      assert TranslateEntries(None, v.entries).value == v.entries;
    }
  }

  // ---------------------------------------------------------------------
  // Column type and styles

  /** The value and the two lists a cell's styles accumulate into. */
  datatype CellState = CellState(value: Cell, css: seq<string>, classes: seq<string>)

  /** The state before the styles run: the `hidden` class, the right
      alignment of numbers, the `<pre>` dump of PHP-array columns. */
  function InitialState(view: View, col: Column, v: Cell): CellState
  {
    CellState(
      if col.colType.PhpArray? then Text("<pre>" + view.printR(v) + "</pre>") else v,
      if col.colType.Number? then ["text-align: right"] else [],
      if col.hidden then ["hidden"] else [])
  }

  /** The inline-CSS declaration a style variant contributes. */
  function CssEffect(v: StyleVariant): seq<string>
  {
    match v
    case Bold => ["font-weight: bold"]
    case Italic => ["font-style: italic"]
    case Color(hex) => ["color: #" + hex]
    case BackgroundColor(hex) => ["background-color: #" + hex]
    case Align(a) => ["text-align: " + a]
    case _ => []
  }

  /** The class a style variant contributes. */
  function ClassEffect(v: StyleVariant): seq<string>
  {
    match v
    case CssClass(name) => [name]
    case _ => []
  }

  /** One style of the `switch (get_class($style))`: an applying style adds
      its CSS declaration or class, a strikethrough wraps the value in
      `<s>...</s>`, `Html` does nothing and an unknown class throws. */
  function ApplyStyle(row: Row, st: CellState, s: Style): Result<CellState, RenderError>
  {
    if !s.isApply(row) then Success(st)
    else if s.variant.Undefined? then Failure(UndefinedStyle(s.variant.className))
    else
      Success(CellState(
        if s.variant.Strikethrough? then Text("<s>" + AsString(st.value) + "</s>") else st.value,
        st.css + CssEffect(s.variant),
        st.classes + ClassEffect(s.variant)))
  }

  /** The styles in order; the first applying unknown style throws. */
  function ApplyStyles(row: Row, st: CellState, styles: seq<Style>): Result<CellState, RenderError>
    decreases |styles|
  {
    if |styles| == 0 then Success(st)
    else
      match ApplyStyle(row, st, styles[0])
      case Failure(e) => Failure(e)
      case Success(next) => ApplyStyles(row, next, styles[1..])
  }

  /** One step of the style loop. */
  lemma ApplyStylesStep(row: Row, st: CellState, styles: seq<Style>)
    requires |styles| > 0
    ensures ApplyStyle(row, st, styles[0]).Failure? ==>
      ApplyStyles(row, st, styles) == Failure(ApplyStyle(row, st, styles[0]).error)
    ensures ApplyStyle(row, st, styles[0]).Success? ==>
      ApplyStyles(row, st, styles) == ApplyStyles(row, ApplyStyle(row, st, styles[0]).value, styles[1..])
  {
  }

  /** The CSS declarations of the applying styles, in style order. */
  function StyleCss(row: Row, styles: seq<Style>): seq<string>
  {
    if |styles| == 0 then []
    else (if styles[0].isApply(row) then CssEffect(styles[0].variant) else []) + StyleCss(row, styles[1..])
  }

  /** The classes of the applying styles, in style order. */
  function StyleClasses(row: Row, styles: seq<Style>): seq<string>
  {
    if |styles| == 0 then []
    else (if styles[0].isApply(row) then ClassEffect(styles[0].variant) else []) + StyleClasses(row, styles[1..])
  }

  /** How many applying strikethrough styles there are. */
  function StrikeCount(row: Row, styles: seq<Style>): nat
  {
    if |styles| == 0 then 0
    else (if styles[0].isApply(row) && styles[0].variant.Strikethrough? then 1 else 0) + StrikeCount(row, styles[1..])
  }

  /** The value wrapped `n` times in `<s>...</s>`. */
  function Struck(v: Cell, n: nat): Cell
  {
    if n == 0 then v else Text("<s>" + AsString(Struck(v, n - 1)) + "</s>")
  }

  /** An applying style of a class the renderer does not know. */
  predicate AppliesUndefined(row: Row, s: Style)
  {
    s.isApply(row) && s.variant.Undefined?
  }

  lemma {:induction false} StruckTwice(v: Cell, a: nat, b: nat)
    ensures Struck(Struck(v, a), b) == Struck(v, a + b)
  {
    if b > 0 {
      StruckTwice(v, a, b - 1);
    }
  }

  /** The style loop throws exactly when some applying style is of an
      unknown class, and then with that class's error. */
  lemma {:induction false} ApplyStylesFailure(row: Row, st: CellState, styles: seq<Style>)
    decreases |styles|
    ensures ApplyStyles(row, st, styles).Failure? <==>
      exists k :: 0 <= k < |styles| && AppliesUndefined(row, styles[k])
    ensures ApplyStyles(row, st, styles).Failure? ==> ApplyStyles(row, st, styles).error.UndefinedStyle?
  {
    if |styles| > 0 && !AppliesUndefined(row, styles[0]) {
      var next := ApplyStyle(row, st, styles[0]).value;
      ApplyStylesFailure(row, next, styles[1..]);
      if exists k :: 0 <= k < |styles[1..]| && AppliesUndefined(row, styles[1..][k]) {
        var k :| 0 <= k < |styles[1..]| && AppliesUndefined(row, styles[1..][k]);
        assert AppliesUndefined(row, styles[k + 1]);
      }
      if exists k :: 0 <= k < |styles| && AppliesUndefined(row, styles[k]) {
        var k :| 0 <= k < |styles| && AppliesUndefined(row, styles[k]);
        assert AppliesUndefined(row, styles[1..][k - 1]);
      }
    }
  }

  /** When the style loop completes, it has appended the applying styles'
      CSS and classes in order and wrapped the value once per applying
      strikethrough; a style that does not apply has no effect. */
  lemma {:induction false} ApplyStylesEffects(row: Row, st: CellState, styles: seq<Style>)
    decreases |styles|
    requires ApplyStyles(row, st, styles).Success?
    ensures ApplyStyles(row, st, styles).value.css == st.css + StyleCss(row, styles)
    ensures ApplyStyles(row, st, styles).value.classes == st.classes + StyleClasses(row, styles)
    ensures ApplyStyles(row, st, styles).value.value == Struck(st.value, StrikeCount(row, styles))
  {
    if |styles| > 0 {
      var s := styles[0];
      var next := ApplyStyle(row, st, s).value;
      ApplyStylesEffects(row, next, styles[1..]);
      if s.isApply(row) && s.variant.Strikethrough? {
        assert next.value == Struck(st.value, 1);
        StruckTwice(st.value, 1, StrikeCount(row, styles[1..]));
      }
    }
  }

  /** Styles concatenated contribute their CSS in that order. */
  lemma {:induction false} StyleCssAppend(row: Row, a: seq<Style>, b: seq<Style>)
    ensures StyleCss(row, a + b) == StyleCss(row, a) + StyleCss(row, b)
  {
    if |a| == 0 {
      assert a + b == b;
    } else {
      var head := if a[0].isApply(row) then CssEffect(a[0].variant) else [];
      assert (a + b)[0] == a[0] && (a + b)[1..] == a[1..] + b;
      StyleCssAppend(row, a[1..], b);
      assert StyleCss(row, a + b) == head + (StyleCss(row, a[1..]) + StyleCss(row, b));
      assert StyleCss(row, a) == head + StyleCss(row, a[1..]);
    }
  }

  /** Styles concatenated contribute their classes in that order. */
  lemma {:induction false} StyleClassesAppend(row: Row, a: seq<Style>, b: seq<Style>)
    ensures StyleClasses(row, a + b) == StyleClasses(row, a) + StyleClasses(row, b)
  {
    if |a| == 0 {
      assert a + b == b;
    } else {
      var head := if a[0].isApply(row) then ClassEffect(a[0].variant) else [];
      assert (a + b)[0] == a[0] && (a + b)[1..] == a[1..] + b;
      StyleClassesAppend(row, a[1..], b);
      assert StyleClasses(row, a + b) == head + (StyleClasses(row, a[1..]) + StyleClasses(row, b));
      assert StyleClasses(row, a) == head + StyleClasses(row, a[1..]);
    }
  }

  // ---------------------------------------------------------------------
  // Actions, row click and the `<td>`

  /** The action as it is handed to `toHtml`: its title translated, and its
      link resolved through the URL helper when it has a route. */
  function PreparedAction(translator: Option<Translator>, view: View, a: Action): (r: Action)
    ensures r.title == Translate(translator, a.title)
    ensures Truthy(a.route) ==> r.link == view.url(a.route, a.routeParams)
    ensures !Truthy(a.route) ==> r.link == a.link
    ensures r.route == a.route && r.routeParams == a.routeParams && r.isDisplayed == a.isDisplayed
  {
    var titled := a.(title := Translate(translator, a.title));
    if Truthy(titled.route) then titled.(link := view.url(titled.route, titled.routeParams)) else titled
  }

  /** The HTML of the displayed actions, in action order. */
  function ActionsHtml(translator: Option<Translator>, view: View, row: Row, actions: seq<Action>): seq<string>
  {
    if |actions| == 0 then []
    else
      var last := actions[|actions| - 1];
      ActionsHtml(translator, view, row, actions[..|actions| - 1])
        + (if last.isDisplayed(row) then [view.toHtml(PreparedAction(translator, view, last), row, translator)] else [])
  }

  /** The actions whose `isDisplayed(row)` holds, in order. */
  function DisplayedActions(row: Row, actions: seq<Action>): seq<Action>
  {
    if |actions| == 0 then []
    else
      var last := actions[|actions| - 1];
      DisplayedActions(row, actions[..|actions| - 1]) + (if last.isDisplayed(row) then [last] else [])
  }

  /** Exactly the displayed actions are rendered, each once, in order, each
      with its translated title. */
  lemma {:induction false} ActionsHtmlDisplayed(translator: Option<Translator>, view: View, row: Row, actions: seq<Action>)
    ensures |ActionsHtml(translator, view, row, actions)| == |DisplayedActions(row, actions)| <= |actions|
    ensures forall k :: 0 <= k < |DisplayedActions(row, actions)| ==>
      && DisplayedActions(row, actions)[k].isDisplayed(row)
      && ActionsHtml(translator, view, row, actions)[k]
         == view.toHtml(PreparedAction(translator, view, DisplayedActions(row, actions)[k]), row, translator)
      && PreparedAction(translator, view, DisplayedActions(row, actions)[k]).title
         == Translate(translator, DisplayedActions(row, actions)[k].title)
  {
    if |actions| > 0 {
      ActionsHtmlDisplayed(translator, view, row, actions[..|actions| - 1]);
    }
  }

  /** The row-click wrapping of a Select column's value. */
  function RowClickLink(view: View, action: Action, row: Row, v: Cell): string
  {
    "<a href=\"" + view.linkReplaced(action, row) + "\">" + AsString(v) + "</a>"
  }

  /** One `name="value"` attribute. */
  function AttributeText(name: string, value: string): string
  {
    name + "=\"" + value + "\""
  }

  /** The attributes `getTd` emits: those with a non-empty value, in order. */
  function RenderedAttributes(attributes: seq<(string, string)>): seq<string>
  {
    if |attributes| == 0 then []
    else
      var last := attributes[|attributes| - 1];
      RenderedAttributes(attributes[..|attributes| - 1])
        + (if last.1 != "" then [AttributeText(last.0, last.1)] else [])
  }

  /** The `<td>` that `getTd(dataValue, attributes)` returns. */
  function TdHtml(dataValue: string, attributes: seq<(string, string)>): string
  {
    "<td " + Implode(" ", RenderedAttributes(attributes)) + ">" + dataValue + "</td>"
  }

  /** The three attributes of a cell, in the order the renderer lists them. */
  function CellAttributes(col: Column, st: CellState): seq<(string, string)>
  {
    [("class", Implode(" ", st.classes)), ("style", Implode(";", st.css)), ("data-columnUniqueId", col.uniqueId)]
  }

  /** A cell's `class`, `style` and `data-columnUniqueId` attributes appear in
      that order, each only when its value is non-empty. */
  lemma CellAttributeOrder(classValue: string, styleValue: string, id: string)
    ensures RenderedAttributes([("class", classValue), ("style", styleValue), ("data-columnUniqueId", id)])
      == (if classValue != "" then [AttributeText("class", classValue)] else [])
       + (if styleValue != "" then [AttributeText("style", styleValue)] else [])
       + (if id != "" then [AttributeText("data-columnUniqueId", id)] else [])
  {
    var attributes := [("class", classValue), ("style", styleValue), ("data-columnUniqueId", id)];
    assert attributes[..2] == [("class", classValue), ("style", styleValue)];
    assert attributes[..2][..1] == [("class", classValue)];
    assert attributes[..2][..1][..0] == [];
    assert RenderedAttributes(attributes[..2][..1]) == (if classValue != "" then [AttributeText("class", classValue)] else []);
    assert RenderedAttributes(attributes[..2]) == RenderedAttributes(attributes[..2][..1])
      + (if styleValue != "" then [AttributeText("style", styleValue)] else []);
  }

  // ---------------------------------------------------------------------
  // Cells and rows

  /** The data value and attributes of one visible column's `<td>`, or the
      exception rendering it throws. */
  function CellOutcome(translator: Option<Translator>, view: View, row: Row, col: Column,
                       rowClickAction: Option<Action>, rowStyles: seq<Style>): Result<(string, seq<(string, string)>), RenderError>
  {
    match CellValue(translator, row, col)
    case Failure(e) => Failure(e)
    case Success(v) =>
      match ApplyStyles(row, InitialState(view, col, v), rowStyles + col.styles)
      case Failure(e) => Failure(e)
      case Success(st) => CellData(translator, view, row, col, rowClickAction, st)
  }

  /** The data value and attributes of a styled cell: an action column shows
      its actions, a row-click column wraps the value in a link, and a value
      that is not a string by then throws. */
  function CellData(translator: Option<Translator>, view: View, row: Row, col: Column,
                    rowClickAction: Option<Action>, st: CellState): Result<(string, seq<(string, string)>), RenderError>
  {
    var withActions :=
      if col.kind.ActionColumn? then Text(Implode(" ", ActionsHtml(translator, view, row, col.kind.actions)))
      else st.value;
    var clicked :=
      if col.kind.SelectColumn? && rowClickAction.Some? && col.rowClickEnabled
      then Text(RowClickLink(view, rowClickAction.value, row, withActions))
      else withActions;
    match clicked
    case Text(data) => Success((data, CellAttributes(col, st)))
    case _ => Failure(NotAString(col.uniqueId))
  }

  /** One visible column's `<td>`. */
  function CellHtml(translator: Option<Translator>, view: View, row: Row, col: Column,
                    rowClickAction: Option<Action>, rowStyles: seq<Style>): Result<string, RenderError>
  {
    match CellOutcome(translator, view, row, col, rowClickAction, rowStyles)
    case Failure(e) => Failure(e)
    case Success(td) => Success(TdHtml(td.0, td.1))
  }

  /** A rendered cell's attributes are those of its styled state. */
  lemma CellOutcomeStyled(translator: Option<Translator>, view: View, row: Row, col: Column,
                          rowClickAction: Option<Action>, rowStyles: seq<Style>)
    requires CellOutcome(translator, view, row, col, rowClickAction, rowStyles).Success?
    ensures CellValue(translator, row, col).Success?
    ensures var styled := ApplyStyles(row, InitialState(view, col, CellValue(translator, row, col).value), rowStyles + col.styles);
      && styled.Success?
      && CellOutcome(translator, view, row, col, rowClickAction, rowStyles).value.1 == CellAttributes(col, styled.value)
  {
  }

  /** A cell's `style` attribute lists the type's right alignment first, then
      the applying row styles' CSS, then the applying column styles' CSS; its
      `class` attribute lists `hidden`, then the row styles' classes, then the
      column styles' classes. */
  lemma CellStyleAttributes(translator: Option<Translator>, view: View, row: Row, col: Column,
                            rowClickAction: Option<Action>, rowStyles: seq<Style>)
    requires CellOutcome(translator, view, row, col, rowClickAction, rowStyles).Success?
    ensures CellOutcome(translator, view, row, col, rowClickAction, rowStyles).value.1 ==
      [ ("class", Implode(" ", (if col.hidden then ["hidden"] else [])
                               + StyleClasses(row, rowStyles) + StyleClasses(row, col.styles))),
        ("style", Implode(";", (if col.colType.Number? then ["text-align: right"] else [])
                               + StyleCss(row, rowStyles) + StyleCss(row, col.styles))),
        ("data-columnUniqueId", col.uniqueId) ]
  {
    CellOutcomeStyled(translator, view, row, col, rowClickAction, rowStyles);
    var st := InitialState(view, col, CellValue(translator, row, col).value);
    StyledAttributes(row, col, st, rowStyles, col.styles);
  }

  /** The attributes of a state styled by two lists of styles in turn. */
  lemma StyledAttributes(row: Row, col: Column, st: CellState, first: seq<Style>, second: seq<Style>)
    requires ApplyStyles(row, st, first + second).Success?
    ensures CellAttributes(col, ApplyStyles(row, st, first + second).value) ==
      [ ("class", Implode(" ", st.classes + StyleClasses(row, first) + StyleClasses(row, second))),
        ("style", Implode(";", st.css + StyleCss(row, first) + StyleCss(row, second))),
        ("data-columnUniqueId", col.uniqueId) ]
  {
    var styled := ApplyStyles(row, st, first + second).value;
    ApplyStylesEffects(row, st, first + second);
    StyleCssAppend(row, first, second);
    StyleClassesAppend(row, first, second);
    assert styled.classes == st.classes + StyleClasses(row, first) + StyleClasses(row, second);
    assert styled.css == st.css + StyleCss(row, first) + StyleCss(row, second);
  }

  /** What a rendered cell shows: an action column its displayed actions'
      HTML joined by spaces, any other column its value after replacement,
      translation, the type effect and the strikethroughs; a row-click
      Select column wraps that in the row-click link. */
  lemma CellContent(translator: Option<Translator>, view: View, row: Row, col: Column,
                    rowClickAction: Option<Action>, rowStyles: seq<Style>)
    requires CellOutcome(translator, view, row, col, rowClickAction, rowStyles).Success?
    ensures CellValue(translator, row, col).Success?
    ensures var base :=
        if col.kind.ActionColumn? then Text(Implode(" ", ActionsHtml(translator, view, row, col.kind.actions)))
        else Struck(InitialState(view, col, CellValue(translator, row, col).value).value, StrikeCount(row, rowStyles + col.styles));
      CellOutcome(translator, view, row, col, rowClickAction, rowStyles).value.0
        == if col.kind.SelectColumn? && rowClickAction.Some? && col.rowClickEnabled
           then RowClickLink(view, rowClickAction.value, row, base)
           else AsString(base)
  {
    var st := InitialState(view, col, CellValue(translator, row, col).value);
    ApplyStylesEffects(row, st, rowStyles + col.styles);
  }

  /** A scalar found in the replace map renders exactly as its mapped entry,
      unless the column shows actions, wraps the value in the row-click
      link, dumps it as a PHP array, translates it or strikes it through. */
  lemma ReplacementRenders(translator: Option<Translator>, view: View, row: Row, col: Column,
                           rowClickAction: Option<Action>, rowStyles: seq<Style>)
    requires !col.kind.ActionColumn? && !(col.kind.SelectColumn? && rowClickAction.Some? && col.rowClickEnabled)
    requires !col.colType.PhpArray? && col.hasReplaceValues && !col.translationEnabled
    requires ValueAt(row, col.uniqueId).Text? && ValueAt(row, col.uniqueId).text in col.replaceValues
    requires forall s :: s in rowStyles + col.styles && s.isApply(row) ==> !s.variant.Undefined? && !s.variant.Strikethrough?
    ensures CellOutcome(translator, view, row, col, rowClickAction, rowStyles).Success?
    ensures CellOutcome(translator, view, row, col, rowClickAction, rowStyles).value.0
      == col.replaceValues[ValueAt(row, col.uniqueId).text]
  {
    var styles := rowStyles + col.styles;
    var st := InitialState(view, col, CellValue(translator, row, col).value);
    ApplyStylesFailure(row, st, styles);
    ApplyStylesEffects(row, st, styles);
    NoStrikethrough(row, styles);
  }

  /** Rendering a cell throws an `UndefinedStyle` error exactly when its
      value gets through replacement and translation and one of its
      applying row or column styles is of an unknown class. */
  lemma CellFailsOnUndefinedStyle(translator: Option<Translator>, view: View, row: Row, col: Column,
                                  rowClickAction: Option<Action>, rowStyles: seq<Style>)
    ensures (CellOutcome(translator, view, row, col, rowClickAction, rowStyles).Failure?
             && CellOutcome(translator, view, row, col, rowClickAction, rowStyles).error.UndefinedStyle?)
      <==> && CellValue(translator, row, col).Success?
           && exists k :: 0 <= k < |rowStyles + col.styles| && AppliesUndefined(row, (rowStyles + col.styles)[k])
  {
    if CellValue(translator, row, col).Success? {
      var st := InitialState(view, col, CellValue(translator, row, col).value);
      ApplyStylesFailure(row, st, rowStyles + col.styles);
    }
  }

  /** A `null` in a translated column makes the cell throw, before any
      style is looked at. */
  lemma NullTranslatedFails(translator: Option<Translator>, view: View, row: Row, col: Column,
                            rowClickAction: Option<Action>, rowStyles: seq<Style>)
    requires col.translationEnabled && Replaced(col, ValueAt(row, col.uniqueId)) == Success(Null)
    ensures CellOutcome(translator, view, row, col, rowClickAction, rowStyles) == Failure(NullTranslated(col.uniqueId))
  {
  }

  /** A column that neither shows actions nor wraps the value in the
      row-click link, whose value stays `null` or an array through
      replacement, translation, the type effect and the styles, throws at
      `getTd`. */
  lemma NonStringCellFails(translator: Option<Translator>, view: View, row: Row, col: Column,
                           rowClickAction: Option<Action>, rowStyles: seq<Style>)
    requires !col.kind.ActionColumn? && !(col.kind.SelectColumn? && rowClickAction.Some? && col.rowClickEnabled)
    requires !col.colType.PhpArray?
    requires CellValue(translator, row, col).Success? && !CellValue(translator, row, col).value.Text?
    requires forall s :: s in rowStyles + col.styles && s.isApply(row) ==> !s.variant.Undefined? && !s.variant.Strikethrough?
    ensures CellOutcome(translator, view, row, col, rowClickAction, rowStyles) == Failure(NotAString(col.uniqueId))
  {
    var styles := rowStyles + col.styles;
    var st := InitialState(view, col, CellValue(translator, row, col).value);
    ApplyStylesFailure(row, st, styles);
    ApplyStylesEffects(row, st, styles);
    NoStrikethrough(row, styles);
  }

  lemma {:induction false} NoStrikethrough(row: Row, styles: seq<Style>)
    requires forall s :: s in styles && s.isApply(row) ==> !s.variant.Strikethrough?
    ensures StrikeCount(row, styles) == 0
  {
    if |styles| > 0 {
      assert styles[0] in styles;
      NoStrikethrough(row, styles[1..]);
    }
  }

  /** A number column's `style` attribute starts with `text-align: right`,
      ahead of any style's CSS. */
  lemma NumberColumnRightAligned(translator: Option<Translator>, view: View, row: Row, col: Column,
                                 rowClickAction: Option<Action>, rowStyles: seq<Style>)
    requires col.colType.Number?
    requires CellOutcome(translator, view, row, col, rowClickAction, rowStyles).Success?
    ensures var style := CellOutcome(translator, view, row, col, rowClickAction, rowStyles).value.1[1].1;
      "text-align: right" <= style
  {
    CellStyleAttributes(translator, view, row, col, rowClickAction, rowStyles);
    var css := ["text-align: right"] + StyleCss(row, rowStyles) + StyleCss(row, col.styles);
    assert css[0] == "text-align: right";
    ImplodeStartsWithFirst(";", css);
  }

  lemma {:induction false} ImplodeStartsWithFirst(glue: string, pieces: seq<string>)
    requires |pieces| > 0
    ensures pieces[0] <= Implode(glue, pieces)
  {
    if |pieces| > 1 {
      ImplodeStartsWithFirst(glue, pieces[..|pieces| - 1]);
    }
  }

  /** The columns that are not hidden with `isHide()`. */
  function Visible(cols: seq<Column>): seq<Column>
  {
    if |cols| == 0 then [] else (if cols[0].hide then [] else [cols[0]]) + Visible(cols[1..])
  }

  /** What renders one visible column's `<td>`, or throws. */
  type CellRenderer = Column -> Result<string, RenderError>

  /** The row's cell renderer. */
  function CellRendering(translator: Option<Translator>, view: View, row: Row,
                         rowClickAction: Option<Action>, rowStyles: seq<Style>): CellRenderer
  {
    c => CellHtml(translator, view, row, c, rowClickAction, rowStyles)
  }

  /** The column loop: the `<td>`s of the columns not hidden with
      `isHide()`, in column order; the first column whose cell throws
      decides the error. */
  function RenderColumns(cell: CellRenderer, cols: seq<Column>): Result<seq<string>, RenderError>
  {
    if |cols| == 0 then Success([])
    else if cols[0].hide then RenderColumns(cell, cols[1..])
    else
      match cell(cols[0])
      case Failure(e) => Failure(e)
      case Success(td) =>
        match RenderColumns(cell, cols[1..])
        case Failure(e) => Failure(e)
        case Success(tds) => Success([td] + tds)
  }

  /** The checkbox selecting the row for a mass action. */
  function MassActionCheckbox(row: Row): string
  {
    "<input type=\"checkbox\" name=\"massActionSelected[]\" value=\"" + AsString(ValueAt(row, "idConcated")) + "\" />"
  }

  /** The mass-action checkbox cell. */
  function MassActionCell(row: Row): string
  {
    "<td>" + MassActionCheckbox(row) + "</td>"
  }

  /** `getTr($row, $open)`: the opening tag, with the row id when the row has
      one, or the closing tag. */
  function GetTr(row: Row, open: bool := true): (r: string)
    ensures !open ==> r == "</tr>"
    ensures open ==> |r| >= 4 && r[..3] == "<tr" && r[|r| - 1] == '>'
    ensures open && !IdSet(row) ==> r == "<tr>"
    ensures open && IdSet(row) ==>
      && |r| == |AsString(row["idConcated"])| + 10
      && r[..8] == "<tr id=\"" && r[8..|r| - 2] == AsString(row["idConcated"]) && r[|r| - 2..] == "\">"
  {
    if !open then "</tr>"
    else if IdSet(row) then "<tr id=\"" + AsString(row["idConcated"]) + "\">"
    else "<tr>"
  }

  /** `isset($row['idConcated'])`: present and not `null`. */
  predicate IdSet(row: Row)
  {
    "idConcated" in row && !row["idConcated"].Null?
  }

  /** `Prepend(done, r)`: `r` with `done` in front of its cells. */
  function Prepend(done: seq<string>, r: Result<seq<string>, RenderError>): Result<seq<string>, RenderError>
  {
    match r
    case Failure(e) => Failure(e)
    case Success(tds) => Success(done + tds)
  }

  /** All `<td>`s of the row: the mass-action cell first, when enabled. */
  function RowCellList(translator: Option<Translator>, view: View, row: Row, cols: seq<Column>,
                       rowClickAction: Option<Action>, rowStyles: seq<Style>, hasMassActions: bool): Result<seq<string>, RenderError>
  {
    Prepend(if hasMassActions then [MassActionCell(row)] else [],
            RenderColumns(CellRendering(translator, view, row, rowClickAction, rowStyles), cols))
  }

  /** The row's markup, or the exception rendering it throws. */
  function RowHtml(translator: Option<Translator>, view: View, row: Row, cols: seq<Column>,
                   rowClickAction: Option<Action>, rowStyles: seq<Style>, hasMassActions: bool): Result<string, RenderError>
  {
    match RowCellList(translator, view, row, cols, rowClickAction, rowStyles, hasMassActions)
    case Failure(e) => Failure(e)
    case Success(tds) => Success(GetTr(row) + Concat(tds) + GetTr(row, false))
  }

  /** Hidden columns contribute nothing: the loop yields one `<td>` per
      visible column, in order, each that column's cell. */
  lemma {:induction false} ColumnsOfVisible(cell: CellRenderer, cols: seq<Column>)
    requires RenderColumns(cell, cols).Success?
    ensures |RenderColumns(cell, cols).value| == |Visible(cols)|
    ensures forall k :: 0 <= k < |Visible(cols)| ==> cell(Visible(cols)[k]) == Success(RenderColumns(cell, cols).value[k])
  {
    if |cols| > 0 {
      ColumnsOfVisible(cell, cols[1..]);
      if !cols[0].hide {
        assert Visible(cols) == [cols[0]] + Visible(cols[1..]);
      } else {
        assert Visible(cols) == Visible(cols[1..]);
      }
    }
  }

  /** The loop fails exactly when the cell of some visible column fails; a
      hidden column cannot make it fail. */
  lemma {:induction false} ColumnsFailure(cell: CellRenderer, cols: seq<Column>)
    ensures RenderColumns(cell, cols).Failure? <==> exists k :: 0 <= k < |Visible(cols)| && cell(Visible(cols)[k]).Failure?
  {
    if |cols| > 0 {
      ColumnsFailure(cell, cols[1..]);
      var rest := Visible(cols[1..]);
      if !cols[0].hide {
        assert Visible(cols) == [cols[0]] + rest;
        if cell(cols[0]).Failure? {
          assert cell(Visible(cols)[0]).Failure?;
        } else {
          if exists k :: 0 <= k < |rest| && cell(rest[k]).Failure? {
            var k :| 0 <= k < |rest| && cell(rest[k]).Failure?;
            assert Visible(cols)[k + 1] == rest[k];
          }
          if exists k :: 0 <= k < |Visible(cols)| && cell(Visible(cols)[k]).Failure? {
            var k :| 0 <= k < |Visible(cols)| && cell(Visible(cols)[k]).Failure?;
            assert k > 0 && Visible(cols)[k] == rest[k - 1];
          }
        }
      } else {
        assert Visible(cols) == rest;
      }
    }
  }

  /** When the first failing cell fails, the loop fails with its error. */
  lemma {:induction false} ColumnsFirstError(cell: CellRenderer, cols: seq<Column>, k: nat)
    requires k < |Visible(cols)| && cell(Visible(cols)[k]).Failure?
    requires forall j :: 0 <= j < k ==> cell(Visible(cols)[j]).Success?
    ensures RenderColumns(cell, cols) == Failure(cell(Visible(cols)[k]).error)
  {
    var rest := Visible(cols[1..]);
    if cols[0].hide {
      assert Visible(cols) == rest;
      ColumnsFirstError(cell, cols[1..], k);
    } else {
      assert Visible(cols) == [cols[0]] + rest;
      if k > 0 {
        assert cell(Visible(cols)[0]).Success?;
        forall j | 0 <= j < k - 1 ensures cell(rest[j]).Success? {
          assert rest[j] == Visible(cols)[j + 1];
        }
        ColumnsFirstError(cell, cols[1..], k - 1);
      }
    }
  }

  lemma PrefixOfConcat(a: string, b: string, c: string)
    requires a <= b
    ensures a <= b + c
  {
    assert (b + c)[..|a|] == b[..|a|];
  }

  /** What `getTd` returns is one `<td ...>...</td>` element. */
  lemma TdHtmlIsTd(dataValue: string, attributes: seq<(string, string)>)
    ensures "<td" <= TdHtml(dataValue, attributes)
    ensures TdHtml(dataValue, attributes)[|TdHtml(dataValue, attributes)| - 5..] == "</td>"
  {
    var html := TdHtml(dataValue, attributes);
    var middle := Implode(" ", RenderedAttributes(attributes)) + ">" + dataValue;
    assert html == "<td " + middle + "</td>";
    PrefixOfConcat("<td", "<td ", middle + "</td>");
    assert html == "<td " + (middle + "</td>");
  }

  /** A rendered cell is one `<td ...>...</td>` element. */
  lemma CellHtmlIsTd(translator: Option<Translator>, view: View, row: Row, col: Column,
                     rowClickAction: Option<Action>, rowStyles: seq<Style>)
    requires CellHtml(translator, view, row, col, rowClickAction, rowStyles).Success?
    ensures "<td" <= CellHtml(translator, view, row, col, rowClickAction, rowStyles).value
  {
    var td := CellOutcome(translator, view, row, col, rowClickAction, rowStyles).value;
    TdHtmlIsTd(td.0, td.1);
  }

  /** The mass-action cell is a `<td>` too. */
  lemma MassActionCellIsTd(row: Row)
    ensures "<td" <= MassActionCell(row)
  {
    assert MassActionCell(row) == "<td>" + (MassActionCheckbox(row) + "</td>");
    PrefixOfConcat("<td", "<td>", MassActionCheckbox(row) + "</td>");
  }

  /** When every cell the renderer produces is a `<td>`, so is every
      cell of the loop. */
  lemma {:induction false} ColumnsAreTds(cell: CellRenderer, cols: seq<Column>)
    requires RenderColumns(cell, cols).Success?
    requires forall c :: cell(c).Success? ==> "<td" <= cell(c).value
    ensures forall k :: 0 <= k < |RenderColumns(cell, cols).value| ==> "<td" <= RenderColumns(cell, cols).value[k]
  {
    if |cols| > 0 {
      ColumnsAreTds(cell, cols[1..]);
    }
  }

  /** The row holds one `<td>` per visible column plus one for the
      mass-action checkbox when enabled, the checkbox first; every element
      is a `<td>`. */
  lemma RowCellCount(translator: Option<Translator>, view: View, row: Row, cols: seq<Column>,
                     rowClickAction: Option<Action>, rowStyles: seq<Style>, hasMassActions: bool)
    requires RowCellList(translator, view, row, cols, rowClickAction, rowStyles, hasMassActions).Success?
    ensures var tds := RowCellList(translator, view, row, cols, rowClickAction, rowStyles, hasMassActions).value;
      && |tds| == |Visible(cols)| + (if hasMassActions then 1 else 0)
      && (hasMassActions ==> tds[0] == MassActionCell(row))
      && forall k :: 0 <= k < |tds| ==> "<td" <= tds[k]
  {
    var cell := CellRendering(translator, view, row, rowClickAction, rowStyles);
    forall c | cell(c).Success? ensures "<td" <= cell(c).value {
      CellHtmlIsTd(translator, view, row, c, rowClickAction, rowStyles);
    }
    ColumnsOfVisible(cell, cols);
    ColumnsAreTds(cell, cols);
    MassActionCellIsTd(row);
    PrependCells(if hasMassActions then [MassActionCell(row)] else [], RenderColumns(cell, cols).value);
  }

  lemma PrependCells(mass: seq<string>, cells: seq<string>)
    requires forall k :: 0 <= k < |mass| ==> "<td" <= mass[k]
    requires forall k :: 0 <= k < |cells| ==> "<td" <= cells[k]
    ensures forall k :: 0 <= k < |mass + cells| ==> "<td" <= (mass + cells)[k]
  {
    forall k | 0 <= k < |mass + cells| ensures "<td" <= (mass + cells)[k] {
      if k >= |mass| {
        assert (mass + cells)[k] == cells[k - |mass|];
      }
    }
  }

  /** The markup of a row of cells opens with the row's `<tr>` tag and
      closes with `</tr>`. */
  lemma TrFrame(row: Row, tds: seq<string>)
    ensures var html := GetTr(row) + Concat(tds) + GetTr(row, false);
      && |html| >= 5
      && html[|html| - 5..] == "</tr>"
      && GetTr(row) <= html
  {
    var html := GetTr(row) + Concat(tds) + "</tr>";
    assert html[|html| - 5..] == "</tr>";
    assert html == GetTr(row) + (Concat(tds) + "</tr>");
  }

  /** The row opens with `<tr id="...">` when it has an id and `<tr>`
      otherwise, and always closes with `</tr>`. */
  lemma RowMarkupFrame(translator: Option<Translator>, view: View, row: Row, cols: seq<Column>,
                       rowClickAction: Option<Action>, rowStyles: seq<Style>, hasMassActions: bool)
    requires RowHtml(translator, view, row, cols, rowClickAction, rowStyles, hasMassActions).Success?
    ensures var html := RowHtml(translator, view, row, cols, rowClickAction, rowStyles, hasMassActions).value;
      && |html| >= 5
      && html[|html| - 5..] == "</tr>"
      && (!IdSet(row) ==> "<tr>" <= html)
      && (IdSet(row) ==> "<tr id=\"" + AsString(row["idConcated"]) + "\">" <= html)
  {
    TrFrame(row, RowCellList(translator, view, row, cols, rowClickAction, rowStyles, hasMassActions).value);
  }

  /** One step of the column loop: a hidden column is skipped, a visible
      column's cell joins the cells rendered so far or its error is the
      outcome. */
  lemma ColumnLoopStep(cell: CellRenderer, outcome: Result<seq<string>, RenderError>, done: seq<string>, rest: seq<Column>)
    requires |rest| > 0
    requires outcome == Prepend(done, RenderColumns(cell, rest))
    ensures rest[0].hide ==> outcome == Prepend(done, RenderColumns(cell, rest[1..]))
    ensures !rest[0].hide && cell(rest[0]).Failure? ==> outcome == Failure(cell(rest[0]).error)
    ensures !rest[0].hide && cell(rest[0]).Success? ==>
      outcome == Prepend(done + [cell(rest[0]).value], RenderColumns(cell, rest[1..]))
  {
    if !rest[0].hide && cell(rest[0]).Success? {
      PrependTwice(done, cell(rest[0]).value, RenderColumns(cell, rest[1..]));
    }
  }

  lemma PrependNothing(done: seq<string>)
    ensures Prepend(done, Success([])) == Success(done)
  {
    assert done + [] == done;
  }

  /** Appending one more cell to the markup built so far. */
  lemma MarkupStep(open: string, done: seq<string>, td: string)
    ensures open + Concat(done) + td == open + Concat(done + [td])
  {
    ConcatAppend(done, td);
  }

  lemma PrependTwice(done: seq<string>, td: string, r: Result<seq<string>, RenderError>)
    ensures Prepend(done, Prepend([td], r)) == Prepend(done + [td], r)
  {
    if r.Success? {
      assert done + ([td] + r.value) == (done + [td]) + r.value;
    }
  }

  // ---------------------------------------------------------------------
  // The view helper

  /** The `TableRow` view helper and its optional translator. */
  class TableRow {
    var translator: Option<Translator>

    constructor ()
      ensures translator == None
    {
      translator := None;
    }

    method SetTranslator(t: Option<Translator>) returns (self: TableRow)
      modifies this
      ensures translator == t && self == this
    {
      translator := t;
      self := this;
    }

    /** The replace loop, `foreach ($value as &$valueEntry)`: rewrites the
        array's entries in place; a nested array entry makes `isset`
        throw. */
    method ReplaceEach(col: Column, es: seq<Entry>) returns (r: Option<seq<Entry>>)
      ensures r == ReplaceEntries(col, es)
    {
      ReplaceEntriesAt(col, es);
      var out := es;
      var i := 0;
      while i < |es|
        invariant 0 <= i <= |out| == |es|
        invariant forall k :: 0 <= k < i ==> !es[k].item.Items?
        invariant forall k :: 0 <= k < i ==> out[k] == Entry(es[k].key, ReplaceItem(col, es[k].item))
        invariant forall k :: i <= k < |out| ==> out[k] == es[k]
      {
        var entry := out[i];
        var key := ReplaceKey(entry.item);
        if key.None? {
          assert es[i].item.Items?;
          return None;
        }
        if key.value in col.replaceValues {
          out := out[i := entry.(item := Text(col.replaceValues[key.value]))];
        } else if col.notReplacedGetEmpty {
          out := out[i := entry.(item := Text(""))];
        }
        i := i + 1;
      }
      assert ReplaceEntries(col, es).Some?;
      assert out == ReplaceEntries(col, es).value;
      r := Some(out);
    }

    /** The translate loop over the array's entries: nested arrays are
        skipped; a `null` entry makes `translate` throw. */
    method TranslateEach(es: seq<Entry>) returns (r: Option<seq<Entry>>)
      ensures r == TranslateEntries(translator, es)
    {
      TranslateEntriesAt(translator, es);
      var out := es;
      var i := 0;
      while i < |es|
        invariant 0 <= i <= |out| == |es|
        invariant forall k :: 0 <= k < i ==> !es[k].item.Null?
        invariant forall k :: 0 <= k < i ==>
          out[k] == Entry(es[k].key, if es[k].item.Text? then Text(Translate(translator, es[k].item.text)) else es[k].item)
        invariant forall k :: i <= k < |out| ==> out[k] == es[k]
      {
        var entry := out[i];
        match entry.item {
          case Items(_) =>
          case Null =>
            assert es[i].item.Null?;
            return None;
          case Text(s) =>
            out := out[i := entry.(item := Text(Translate(translator, s)))];
        }
        i := i + 1;
      }
      assert TranslateEntries(translator, es).Some?;
      assert out == TranslateEntries(translator, es).value;
      r := Some(out);
    }

    /** The style loop over `array_merge($rowStyles, $col->getStyles())`. */
    method ApplyStylesInOrder(row: Row, styles: seq<Style>, value0: Cell, css0: seq<string>, classes0: seq<string>)
      returns (r: Result<CellState, RenderError>)
      ensures r == ApplyStyles(row, CellState(value0, css0, classes0), styles)
    {
      var value, cssStyles, classes := value0, css0, classes0;
      var i := 0;
      while i < |styles|
        invariant 0 <= i <= |styles|
        invariant ApplyStyles(row, CellState(value0, css0, classes0), styles)
          == ApplyStyles(row, CellState(value, cssStyles, classes), styles[i..])
      {
        var style := styles[i];
        assert styles[i..][0] == style && styles[i..][1..] == styles[i + 1..];
        ghost var before := CellState(value, cssStyles, classes);
        ApplyStylesStep(row, before, styles[i..]);
        if style.isApply(row) {
          match style.variant {
            case Bold => cssStyles := cssStyles + ["font-weight: bold"];
            case Italic => cssStyles := cssStyles + ["font-style: italic"];
            case Color(hex) => cssStyles := cssStyles + ["color: #" + hex];
            case BackgroundColor(hex) => cssStyles := cssStyles + ["background-color: #" + hex];
            case Align(a) => cssStyles := cssStyles + ["text-align: " + a];
            case Strikethrough => value := Text("<s>" + AsString(value) + "</s>");
            case CssClass(name) => classes := classes + [name];
            case Html =>
            case Undefined(name) => return Failure(UndefinedStyle(name));
          }
        }
        assert CellState(value, cssStyles, classes) == ApplyStyle(row, before, style).value;
        i := i + 1;
      }
      r := Success(CellState(value, cssStyles, classes));
    }

    /** The action loop of an action column: the displayed actions' HTML,
        joined by spaces. */
    method RenderActions(row: Row, actions: seq<Action>, view: View) returns (html: string)
      ensures html == Implode(" ", ActionsHtml(translator, view, row, actions))
    {
      var rendered: seq<string> := [];
      var i := 0;
      while i < |actions|
        invariant 0 <= i <= |actions|
        invariant rendered == ActionsHtml(translator, view, row, actions[..i])
      {
        var action := actions[i];
        if action.isDisplayed(row) {
          action := action.(title := Translate(translator, action.title));
          if Truthy(action.route) {
            action := action.(link := view.url(action.route, action.routeParams));
          }
          rendered := rendered + [view.toHtml(action, row, translator)];
        }
        assert actions[..i + 1][..i] == actions[..i];
        i := i + 1;
      }
      assert actions[..i] == actions;
      html := Implode(" ", rendered);
    }

    /** `getTd`: the attributes with a non-empty value, joined by spaces. */
    method GetTd(dataValue: string, attributes: seq<(string, string)>) returns (td: string)
      ensures td == TdHtml(dataValue, attributes)
    {
      var attr: seq<string> := [];
      var i := 0;
      while i < |attributes|
        invariant 0 <= i <= |attributes|
        invariant attr == RenderedAttributes(attributes[..i])
      {
        var (name, value) := attributes[i];
        if value != "" {
          attr := attr + [AttributeText(name, value)];
        }
        assert attributes[..i + 1][..i] == attributes[..i];
        i := i + 1;
      }
      assert attributes[..i] == attributes;
      td := "<td " + Implode(" ", attr) + ">" + dataValue + "</td>";
    }

    /** The body of the column loop for one visible column. */
    method RenderCell(row: Row, col: Column, rowClickAction: Option<Action>, rowStyles: seq<Style>, view: View)
      returns (r: Result<string, RenderError>)
      ensures r == CellHtml(translator, view, row, col, rowClickAction, rowStyles)
    {
      var value := ProcessValue(row, col);
      if value.Failure? {
        return Failure(value.error);
      }
      var styled := StyleValue(row, col, rowStyles, view, value.value);
      if styled.Failure? {
        return Failure(styled.error);
      }
      r := FinishCell(row, col, rowClickAction, view, styled.value);
    }

    /** Replacement, then translation, of the column's value. */
    method ProcessValue(row: Row, col: Column) returns (r: Result<Cell, RenderError>)
      ensures r == CellValue(translator, row, col)
    {
      var value := ValueAt(row, col.uniqueId);
      if col.hasReplaceValues {
        match value {
          case Items(es) =>
            var updated := ReplaceEach(col, es);
            if updated.None? {
              return Failure(IllegalOffset(col.uniqueId));
            }
            value := Items(updated.value);
          case _ =>
            var key := ReplaceKey(value);
            if key.value in col.replaceValues {
              value := Text(col.replaceValues[key.value]);
            } else if col.notReplacedGetEmpty {
              value := Text("");
            }
        }
      }
      assert Success(value) == Replaced(col, ValueAt(row, col.uniqueId));
      if col.translationEnabled {
        match value {
          case Items(es) =>
            var updated := TranslateEach(es);
            if updated.None? {
              return Failure(NullTranslated(col.uniqueId));
            }
            value := Items(updated.value);
          case Null =>
            return Failure(NullTranslated(col.uniqueId));
          case Text(s) =>
            value := Text(Translate(translator, s));
        }
      }
      r := Success(value);
    }

    /** The `hidden` class, the column type's effect, then the style loop. */
    method StyleValue(row: Row, col: Column, rowStyles: seq<Style>, view: View, v: Cell)
      returns (r: Result<CellState, RenderError>)
      ensures r == ApplyStyles(row, InitialState(view, col, v), rowStyles + col.styles)
    {
      var value := v;
      var cssStyles: seq<string> := [];
      var classes: seq<string> := [];
      if col.hidden {
        classes := classes + ["hidden"];
      }
      match col.colType {
        case Number => cssStyles := cssStyles + ["text-align: right"];
        case PhpArray => value := Text("<pre>" + view.printR(value) + "</pre>");
        case OtherType =>
      }
      assert CellState(value, cssStyles, classes) == InitialState(view, col, v);
      r := ApplyStylesInOrder(row, rowStyles + col.styles, value, cssStyles, classes);
    }

    /** Actions, row click, and the `<td>` of a styled cell. */
    method FinishCell(row: Row, col: Column, rowClickAction: Option<Action>, view: View, st: CellState)
      returns (r: Result<string, RenderError>)
      ensures CellData(translator, view, row, col, rowClickAction, st).Failure? ==>
        r == Failure(CellData(translator, view, row, col, rowClickAction, st).error)
      ensures CellData(translator, view, row, col, rowClickAction, st).Success? ==>
        r == Success(TdHtml(CellData(translator, view, row, col, rowClickAction, st).value.0,
                            CellData(translator, view, row, col, rowClickAction, st).value.1))
    {
      var value := st.value;
      if col.kind.ActionColumn? {
        var html := RenderActions(row, col.kind.actions, view);
        value := Text(html);
      }

      if col.kind.SelectColumn? && rowClickAction.Some? && col.rowClickEnabled {
        value := Text("<a href=\"" + view.linkReplaced(rowClickAction.value, row) + "\">" + AsString(value) + "</a>");
      }

      match value {
        case Items(_) =>
          r := Failure(NotAString(col.uniqueId));
        case Null =>
          r := Failure(NotAString(col.uniqueId));
        case Text(data) =>
          var attributes := [
            ("class", Implode(" ", st.classes)),
            ("style", Implode(";", st.css)),
            ("data-columnUniqueId", col.uniqueId)];
          var td := GetTd(data, attributes);
          r := Success(td);
      }
    }

    /** `__invoke`: the row's markup, or the exception rendering it throws. */
    method Invoke(row: Row, cols: seq<Column>, view: View, rowClickAction: Option<Action> := None,
                  rowStyles: seq<Style> := [], hasMassActions: bool := false)
      returns (r: Result<string, RenderError>)
      ensures r == RowHtml(translator, view, row, cols, rowClickAction, rowStyles, hasMassActions)
    {
      var out := GetTr(row);
      ghost var cell := CellRendering(translator, view, row, rowClickAction, rowStyles);
      ghost var done: seq<string> := if hasMassActions then [MassActionCell(row)] else [];
      if hasMassActions {
        out := out + MassActionCell(row);
      }
      assert out == GetTr(row) + Concat(done) by {
        if hasMassActions {
          assert done[..0] == [];
        }
      }
      var i := 0;
      while i < |cols|
        invariant 0 <= i <= |cols|
        invariant out == GetTr(row) + Concat(done)
        invariant RowCellList(translator, view, row, cols, rowClickAction, rowStyles, hasMassActions)
          == Prepend(done, RenderColumns(cell, cols[i..]))
      {
        var col := cols[i];
        assert cols[i..][0] == col && cols[i..][1..] == cols[i + 1..];
        ColumnLoopStep(cell, RowCellList(translator, view, row, cols, rowClickAction, rowStyles, hasMassActions), done, cols[i..]);
        if col.hide {
          i := i + 1;
          continue;
        }
        var td := RenderCell(row, col, rowClickAction, rowStyles, view);
        assert td == cell(col);
        if td.Failure? {
          return Failure(td.error);
        }
        MarkupStep(GetTr(row), done, td.value);
        out := out + td.value;
        done := done + [td.value];
        i := i + 1;
      }
      assert cols[i..] == [];
      PrependNothing(done);
      out := out + GetTr(row, false);
      r := Success(out);
    }
  }
}
