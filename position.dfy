/**
 * Reading a label's or marker's screen position back from its CSS
 * `transform` text (`getPosition`), as Leaflet's `setTransform` writes it:
 * `translate3d(<x>px, <y>px, 0px)`.
 */
module Position {
  import opened Wrappers
  import opened Geometry
  import opened JsString

  /** Why a transform yields no position. */
  datatype PositionError =
    | NoArguments   // no `(`: `split('(')[1]` is `undefined` and calling `split` on it throws
    | NotANumber    // a coordinate field has no leading integer, so `parseInt` gives `NaN`

  /** `parseInt` of a split field; a field that does not exist is `undefined`, which parses to `NaN`. */
  function ParseField(field: Option<string>): (r: Option<int>)
    ensures r.Some? ==> field.Some? && HasDecimalDigit(field.value)
  {
    match field
    case None => None
    case Some(f) => ParseInt(f)
  }

  /**
   * The argument list of the first call in a transform: the text after the
   * first `(` up to the next `(` or `)`, or `None` when there is no `(`.
   */
  function ArgumentList(transform: string): (r: Option<string>)
    ensures r.Some? <==> '(' in transform
    ensures r.Some? ==> '(' !in r.value && ')' !in r.value
  {
    match SplitAt(transform, '(', 1)
    case None => None
    case Some(inner) => Some(Before(inner, ')'))
  }

  /** Fields 0 and 1 of an argument list split on `,`, parsed as the x and y coordinates. */
  function PositionOfArguments(args: string): (r: Result<Point, PositionError>)
    ensures r.Success? ==> ',' in args
    ensures r.Failure? ==> r.error == NotANumber
  {
    var x := ParseField(SplitAt(args, ',', 0));
    var y := ParseField(SplitAt(args, ',', 1));
    if x.Some? && y.Some? then Success(Point(x.value, y.value)) else Failure(NotANumber)
  }

  /** `getPosition`: the position that a CSS `transform` text denotes. */
  function GetPosition(transform: string): (r: Result<Point, PositionError>)
    ensures r == Failure(NoArguments) <==> '(' !in transform
  {
    match ArgumentList(transform)
    case None => Failure(NoArguments)
    case Some(args) => PositionOfArguments(args)
  }

  /** Neither `(`, `)` nor `,` occurs in the printed form of an integer or in whitespace. */
  lemma PlainText(n: int, ws: string)
    requires AllSpace(ws)
    ensures '(' !in IntToString(n) && ')' !in IntToString(n) && ',' !in IntToString(n)
    ensures '(' !in ws && ')' !in ws && ',' !in ws
  {
  }

  /**
   * The argument list is found after the first `(`, whatever precedes it,
   * and ends at the first `(` or `)` after it.
   */
  lemma ArgumentListOf(name: string, head: string, tail: string)
    requires '(' !in name && '(' !in head && ')' !in head
    ensures ArgumentList(name + "(" + head + tail) == Some(head + Before(Before(tail, '('), ')'))
  {
    var s := name + "(" + head + tail;
    assert s == name + ['('] + (head + tail);
    AfterAppend(name, '(', head + tail);
    BeforeAppend(head, tail, '(');
    BeforeAppend(head, Before(tail, '('), ')');
  }

  /** An argument list without `,` has no y field, so it yields no position. */
  lemma NoSecondField(args: string)
    requires ',' !in args
    ensures PositionOfArguments(args) == Failure(NotANumber)
  {
    assert Occurrences(args, ',') == 0;
  }

  /** The argument list of `name(<args>)<tail>` is `<args>`. */
  lemma ArgumentListClosed(name: string, args: string, tail: string)
    requires '(' !in name && '(' !in args && ')' !in args
    ensures ArgumentList(name + "(" + args + ")" + tail) == Some(args)
  {
    assert name + "(" + args + ")" + tail == name + "(" + args + (")" + tail);
    ArgumentListOf(name, args, ")" + tail);
    ClosingParen(tail);
    assert args + [] == args;
  }

  /** Text starting with `)` contributes nothing to an argument list. */
  lemma ClosingParen(tail: string)
    ensures Before(Before(")" + tail, '('), ')') == []
  {
    BeforeAppend(")", tail, '(');
    assert Before(")" + tail, '(')[0] == ')';
  }

  /**
   * A transform whose argument list has no `,` before its `)` has no y field,
   * so it yields no position, whatever precedes and follows.
   */
  lemma GetPositionNeedsTwoFields(name: string, args: string, tail: string)
    requires '(' !in name && '(' !in args && ')' !in args && ',' !in args
    ensures GetPosition(name + "(" + args + ")" + tail) == Failure(NotANumber)
  {
    ArgumentListClosed(name, args, tail);
    NoSecondField(args);
  }

  /** Splitting `<first>,<second>` on `,` gives `<first>` and what precedes any further `,`. */
  lemma FieldsOf(first: string, second: string)
    requires ',' !in first
    ensures SplitAt(first + [','] + second, ',', 0) == Some(first)
    ensures SplitAt(first + [','] + second, ',', 1) == Some(Before(second, ','))
  {
    AfterAppend(first, ',', second);
    BeforeAppend(first, [','] + second, ',');
    assert first + [','] + second == first + ([','] + second);
  }

  /**
   * `name(<f>,<g>)<tail>` with an x field `f` or a y field (`g` up to any
   * further `,`) that has no leading integer yields no position: `parseInt`
   * gives `NaN` there, whatever further fields follow.
   */
  lemma GetPositionNeedsIntegers(name: string, f: string, g: string, tail: string)
    requires '(' !in name
    requires '(' !in f && ')' !in f && ',' !in f
    requires '(' !in g && ')' !in g
    requires ParseInt(f).None? || ParseInt(Before(g, ',')).None?
    ensures GetPosition(name + "(" + f + "," + g + ")" + tail) == Failure(NotANumber)
  {
    TwoFieldsClosed(name, f, g, tail);
    NoPositionFromFields(f, g);
  }

  /** The transform `name(<f>,<g>)<tail>` is read from the argument list `<f>,<g>`. */
  lemma TwoFieldsClosed(name: string, f: string, g: string, tail: string)
    requires '(' !in name
    requires '(' !in f && ')' !in f && ',' !in f
    requires '(' !in g && ')' !in g
    ensures GetPosition(name + "(" + f + "," + g + ")" + tail) == PositionOfArguments(f + [','] + g)
  {
    var args := f + [','] + g;
    assert f + "," + g == args;
    assert name + "(" + f + "," + g + ")" + tail == name + "(" + args + ")" + tail;
    ArgumentListClosed(name, args, tail);
  }

  /** An argument list `<first>,<second>` with a field that is `NaN` gives no point. */
  lemma NoPositionFromFields(first: string, second: string)
    requires ',' !in first
    requires ParseInt(first).None? || ParseInt(Before(second, ',')).None?
    ensures PositionOfArguments(first + [','] + second) == Failure(NotANumber)
  {
    FieldsOf(first, second);
  }

  /** In particular a field with no decimal digit at all, such as `px`, gives no position. */
  lemma GetPositionNeedsDigits(name: string, f: string, g: string, tail: string)
    requires '(' !in name
    requires '(' !in f && ')' !in f && ',' !in f
    requires '(' !in g && ')' !in g
    requires !HasDecimalDigit(f) || !HasDecimalDigit(Before(g, ','))
    ensures GetPosition(name + "(" + f + "," + g + ")" + tail) == Failure(NotANumber)
  {
    GetPositionNeedsIntegers(name, f, g, tail);
  }

  /**
   * `GetPositionNeedsIntegers` reaches further than `GetPositionNeedsDigits`:
   * the field `px5` holds a digit, yet `parseInt` gives `NaN` for it.
   */
  lemma LeadingLetterIsNaN()
    ensures HasDecimalDigit("px5") && ParseInt("px5") == None
  {
    assert IsDecimalDigit("px5"[2]);
    LetterIsNaN("px5");
  }

  /** An argument list `<first>,<second>` whose two fields parse gives their point. */
  lemma PositionOfFields(first: string, second: string, x: int, y: int)
    requires ',' !in first
    requires ParseInt(first) == Some(x) && ParseInt(Before(second, ',')) == Some(y)
    ensures PositionOfArguments(first + [','] + second) == Success(Point(x, y))
  {
    FieldsOf(first, second);
  }

  /** The y field `<spaces><y>px<rest>` parses to y, whatever follows. */
  lemma YFieldOf(ws: string, y: int, rest: string)
    requires AllSpace(ws)
    ensures ParseInt(Before(ws + IntToString(y) + "px" + rest, ',')) == Some(y)
  {
    var sy := IntToString(y);
    PlainText(y, ws);
    assert ws + sy + "px" + rest == (ws + sy + "px") + rest;
    BeforeAppend(ws + sy + "px", rest, ',');
    assert (ws + sy + "px") + Before(rest, ',') == ws + sy + ("px" + Before(rest, ','));
    ParseIntOfString(ws, y, "px" + Before(rest, ','));
  }

  /** The x field `<x>px` parses to x. */
  lemma XFieldOf(x: int)
    ensures ParseInt(IntToString(x) + "px") == Some(x)
  {
    ParseIntOfNumber(x, "px");
  }

  /** The fields of `<x>px,<spaces><y>px<rest>` parse to (x, y), whatever follows. */
  lemma PositionOfArgumentsOf(x: int, ws: string, y: int, rest: string)
    requires AllSpace(ws)
    ensures PositionOfArguments(IntToString(x) + "px," + ws + IntToString(y) + "px" + rest)
            == Success(Point(x, y))
  {
    var first := IntToString(x) + "px";
    var second := ws + IntToString(y) + "px" + rest;
    assert IntToString(x) + "px," + ws + IntToString(y) + "px" + rest == first + [','] + second;
    PlainText(x, ws);
    assert ',' !in first;
    XFieldOf(x);
    YFieldOf(ws, y, rest);
    PositionOfFields(first, second, x, y);
  }

  /** The text `<x>px,<spaces><y>px` holds no parenthesis. */
  lemma HeadIsPlain(x: int, ws: string, y: int)
    requires AllSpace(ws)
    ensures var head := IntToString(x) + "px," + ws + IntToString(y) + "px";
            '(' !in head && ')' !in head
  {
    PlainText(x, ws);
    PlainText(y, ws);
  }

  /**
   * Round trip: for the text Leaflet writes, `name(<x>px,<spaces><y>px<tail>`,
   * `getPosition` gives back the point (x, y), whatever the function name
   * (free of `(`), the spaces after the comma and the rest of the text.
   */
  lemma GetPositionOfTransform(name: string, x: int, ws: string, y: int, tail: string)
    requires '(' !in name
    requires AllSpace(ws)
    ensures GetPosition(name + "(" + IntToString(x) + "px," + ws + IntToString(y) + "px" + tail)
            == Success(Point(x, y))
  {
    var head := IntToString(x) + "px," + ws + IntToString(y) + "px";
    HeadIsPlain(x, ws, y);
    assert name + "(" + IntToString(x) + "px," + ws + IntToString(y) + "px" + tail == name + "(" + head + tail;
    ArgumentListOf(name, head, tail);
    var rest := Before(Before(tail, '('), ')');
    PositionOfArgumentsOf(x, ws, y, rest);
  }
}
