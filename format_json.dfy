/** The JSON tree renderer behind the response viewer: a decoded JSON value
    is walked depth-first into rows, each row carrying its depth, an
    optional line number, its role (plain, expandable opening bracket,
    closing bracket), its key, its value token and whether it ends with a
    comma. A non-empty object or array contributes an opening row, one
    content group holding its children's rows and a closing row.

    The source keeps the line counter in a module-level variable that the
    walk increments; here the counter is threaded in and out of every call
    (`Built.counter`), and `Highlighter` holds the module-level copy. */
module FormatJson {
  import opened Common
  import Decimal

  // ---------------------------------------------------------------------
  // Values and their classification

  /** A decoded JSON value. Objects keep their members in the order the
      parser hands them over; numbers are whole numbers here. */
  datatype JsonValue =
    | JNull
    | JBool(b: bool)
    | JNumber(n: int)
    | JString(s: string)
    | JObject(members: seq<Member>)
    | JArray(items: seq<JsonValue>)

  /** One `[key, value]` pair of `Object.entries`. */
  datatype Member = Member(key: string, value: JsonValue)

  datatype ValueType = NullType | BooleanType | NumberType | StringType | ObjectType | ArrayType

  /** `getValueType`: null is tested first, then arrays, then objects, so an
      array is never reported as an object; whatever is left over falls back
      to null. */
  function GetValueType(v: JsonValue): (t: ValueType)
    ensures t == NullType <==> v.JNull?
    ensures t == BooleanType <==> v.JBool?
    ensures t == NumberType <==> v.JNumber?
    ensures t == StringType <==> v.JString?
    ensures t == ObjectType <==> v.JObject?
    ensures t == ArrayType <==> v.JArray?
  {
    if v.JNull? then NullType
    else if v.JArray? then ArrayType
    else if v.JObject? then ObjectType
    else if v.JString? then StringType
    else if v.JNumber? then NumberType
    else if v.JBool? then BooleanType
    else NullType
  }

  predicate IsCompound(t: ValueType) {
    t == ObjectType || t == ArrayType
  }

  /** An object without entries or an array without elements. */
  predicate IsEmptyCompound(v: JsonValue) {
    (v.JObject? && |v.members| == 0) || (v.JArray? && |v.items| == 0)
  }

  /** A value that is rendered as an opening row, a group and a closing row. */
  predicate IsExpandable(v: JsonValue) {
    (v.JObject? || v.JArray?) && !IsEmptyCompound(v)
  }

  // ---------------------------------------------------------------------
  // Rows

  datatype Bracket = Brace | Square

  /** The value part of a row. */
  datatype Token =
    | BooleanText(b: bool)
    | NullText
    | NumberText(n: int)
    | StringText(s: string)
    | EmptyBrackets(bracket: Bracket)
    | OpenBracket(bracket: Bracket)
    | CloseBracket(bracket: Bracket)

  datatype Role = Plain | Opening | Closing

  /** One rendered row: `number` is present exactly on the rows that show a
      line number. */
  datatype Line = Line(depth: nat, number: Option<nat>, role: Role, key: Option<string>,
                       token: Token, hasComma: bool)

  /** A row, or a content group (`role="group"`, `data-depth`) of rows. */
  datatype Element = Row(line: Line) | Group(depth: nat, items: seq<Element>)

  /** What a walk produced, and the line counter after it. */
  datatype Built = Built(elements: seq<Element>, counter: nat)

  /** `formatPrimitive`: the token of a null, boolean, number or string. */
  function FormatPrimitive(v: JsonValue, t: ValueType): (tok: Token)
    requires t == GetValueType(v) && !IsCompound(t)
    ensures tok.NullText? <==> v.JNull?
    ensures v.JBool? ==> tok == BooleanText(v.b)
    ensures v.JNumber? ==> tok == NumberText(v.n)
    ensures v.JString? ==> tok == StringText(v.s)
  {
    match t
    case BooleanType => BooleanText(v.b)
    case NullType => NullText
    case NumberType => NumberText(v.n)
    case StringType => StringText(v.s)
  }

  function OpenChar(b: Bracket): char {
    if b == Brace then '{' else '['
  }

  function CloseChar(b: Bracket): char {
    if b == Brace then '}' else ']'
  }

  /** The text of a token as the source interpolates it: `String(value)`
      for booleans and numbers, and a string between double quotes exactly
      as it is, with no escaping of any kind. */
  function TokenText(tok: Token): (r: string)
    ensures |r| >= 1 && r[|r| - 1] != ','
  {
    match tok
    case BooleanText(b) => if b then "true" else "false"
    case NullText => "null"
    case NumberText(n) => Decimal.IntToString(n)
    case StringText(s) => "\"" + s + "\""
    case EmptyBrackets(b) => [OpenChar(b), CloseChar(b)]
    case OpenBracket(b) => [OpenChar(b)]
    case CloseBracket(b) => [CloseChar(b)]
  }

  /** `getIndentation`: two spaces per level. */
  function Indentation(depth: nat): (r: string)
    ensures |r| == 2 * depth
    ensures forall i :: 0 <= i < |r| ==> r[i] == ' '
  {
    if depth == 0 then "" else "  " + Indentation(depth - 1)
  }

  /** The key prefix `"key": `, the key copied verbatim. */
  function KeyPrefix(key: Option<string>): string {
    match key
    case None => ""
    case Some(k) => "\"" + k + "\": "
  }

  /** The visible text of a row as the source assembles it (indentation,
      key prefix, value, optional comma), leaving out the markup around it,
      the line number and the expander button. */
  function LineText(l: Line): (r: string)
    ensures |r| > 2 * l.depth
    ensures forall i :: 0 <= i < 2 * l.depth ==> r[i] == ' '
    ensures l.key.Some? ==> "\"" + l.key.value + "\": " <= r[2 * l.depth..]
    ensures (r[|r| - 1] == ',') <==> l.hasComma
  {
    var indent := Indentation(l.depth);
    var r := indent + KeyPrefix(l.key) + TokenText(l.token) + (if l.hasComma then "," else "");
    AssembledLine(indent, KeyPrefix(l.key), TokenText(l.token), l.hasComma);
    r
  }

  /** Indentation, prefix, token and optional comma, put together: the
      indentation leads, the prefix follows it, and the text ends with a
      comma exactly when one was added. */
  lemma AssembledLine(indent: string, prefix: string, token: string, hasComma: bool)
    requires |token| >= 1 && token[|token| - 1] != ','
    ensures var r := indent + prefix + token + (if hasComma then "," else "");
      |r| > |indent| &&
      (forall i :: 0 <= i < |indent| ==> r[i] == indent[i]) &&
      prefix <= r[|indent|..] &&
      ((r[|r| - 1] == ',') <==> hasComma)
  {
    var comma := if hasComma then "," else "";
    var r := indent + prefix + token + comma;
    assert r[|indent|..] == prefix + token + comma;
    if !hasComma {
      assert r[|r| - 1] == token[|token| - 1];
    }
  }

  // ---------------------------------------------------------------------
  // The walk

  /** A line number, if one is shown, and the counter after it. */
  datatype Numbered = Numbered(number: Option<nat>, counter: nat)

  /** `getNextLineNumber`: only rows at depth 0 take a number, and taking
      one advances the counter. */
  function NextLineNumber(depth: nat, counter: nat): (n: Numbered)
    ensures n.number.Some? <==> depth == 0
    ensures n.number.Some? ==> n.number.value == counter && n.counter == counter + 1
    ensures n.number.None? ==> n.counter == counter
  {
    if depth == 0 then Numbered(Some(counter), counter + 1) else Numbered(None, counter)
  }

  /** `{}` for objects, `[]` for arrays. */
  function BracketOf(t: ValueType): Bracket {
    if t == ObjectType then Brace else Square
  }

  /** `processNode`: objects and arrays go to `ProcessCompound`, everything
      else to `ProcessPrimitive`. */
  function ProcessNode(v: JsonValue, key: Option<string>, depth: nat, isLast: bool, counter: nat): (r: Built)
    ensures r.elements != [] && r.elements[0].Row?
    ensures r.elements[0].line.depth == depth && r.elements[0].line.key == key
    ensures depth == 0 ==> r.elements[0].line.number == Some(counter)
    ensures depth > 0 ==> r.elements[0].line.number.None?
    ensures r.elements[|r.elements| - 1].Row? && r.elements[|r.elements| - 1].line.hasComma == !isLast
    ensures counter < r.counter <==> depth == 0
    ensures depth > 0 ==> r.counter == counter
    decreases v, 2
  {
    var t := GetValueType(v);
    if IsCompound(t) then ProcessCompound(v, t, key, depth, isLast, counter)
    else ProcessPrimitive(v, t, key, depth, isLast, counter)
  }

  /** `processPrimitive`: one plain row, with a comma unless it is the last
      sibling. */
  function ProcessPrimitive(v: JsonValue, t: ValueType, key: Option<string>, depth: nat, isLast: bool, counter: nat): (r: Built)
    requires t == GetValueType(v) && !IsCompound(t)
    ensures |r.elements| == 1 && r.elements[0].Row?
    ensures var l := r.elements[0].line;
      l.depth == depth && l.role == Plain && l.key == key && l.hasComma == !isLast &&
      l.token == FormatPrimitive(v, t) && IsLeafToken(l.token)
    ensures depth == 0 ==> r.elements[0].line.number == Some(counter) && r.counter == counter + 1
    ensures depth > 0 ==> r.elements[0].line.number.None? && r.counter == counter
  {
    var n := NextLineNumber(depth, counter);
    Built([Row(Line(depth, n.number, Plain, key, FormatPrimitive(v, t), !isLast))], n.counter)
  }

  /** `processCompound`: an empty object or array is one plain row holding
      both brackets; otherwise an opening row (numbered before any child),
      the children's group at the node's own depth, then the closing row. */
  function ProcessCompound(v: JsonValue, t: ValueType, key: Option<string>, depth: nat, isLast: bool, counter: nat): (r: Built)
    requires t == GetValueType(v) && IsCompound(t)
    ensures IsEmptyCompound(v) ==>
      |r.elements| == 1 && r.elements[0].Row? &&
      r.elements[0].line == Line(depth, NextLineNumber(depth, counter).number, Plain, key,
                                 EmptyBrackets(BracketOf(t)), !isLast)
    ensures !IsEmptyCompound(v) ==>
      |r.elements| == 3 && r.elements[0].Row? && r.elements[1].Group? && r.elements[2].Row? &&
      r.elements[0].line.role == Opening && r.elements[0].line.depth == depth &&
      r.elements[0].line.key == key && !r.elements[0].line.hasComma &&
      r.elements[0].line.number == NextLineNumber(depth, counter).number &&
      r.elements[1].depth == depth && r.elements[1].items != [] &&
      r.elements[2].line.role == Closing && r.elements[2].line.depth == depth &&
      r.elements[2].line.key.None? && r.elements[2].line.hasComma == !isLast &&
      r.elements[0].line.token == OpenBracket(BracketOf(t)) &&
      r.elements[2].line.token == CloseBracket(BracketOf(t))
    ensures counter < r.counter <==> depth == 0
    ensures depth > 0 ==> r.counter == counter
    decreases v, 1
  {
    if IsEmptyCompound(v) then
      var n := NextLineNumber(depth, counter);
      Built([Row(Line(depth, n.number, Plain, key, EmptyBrackets(BracketOf(t)), !isLast))], n.counter)
    else
      var open := NextLineNumber(depth, counter);
      var children := Children(v, depth + 1, open.counter);
      var close := NextLineNumber(depth, children.counter);
      Built([Row(Line(depth, open.number, Opening, key, OpenBracket(BracketOf(t)), false)),
             Group(depth, children.elements),
             Row(Line(depth, close.number, Closing, None, CloseBracket(BracketOf(t)), !isLast))],
            close.counter)
  }

  /** The children of an object or array, one level deeper. */
  function Children(v: JsonValue, depth: nat, counter: nat): (r: Built)
    requires v.JObject? || v.JArray?
    ensures r.elements == [] <==> IsEmptyCompound(v)
    ensures counter <= r.counter
    ensures depth > 0 ==> r.counter == counter
    decreases v, 0
  {
    if v.JObject? then ObjectChildren(v.members, depth, counter) else ArrayChildren(v.items, depth, counter)
  }

  /** The members of an object, in order, each keyed, the final one last. */
  function ObjectChildren(members: seq<Member>, depth: nat, counter: nat): (r: Built)
    ensures r.elements == [] <==> members == []
    ensures counter <= r.counter
    ensures depth > 0 ==> r.counter == counter
    decreases members
  {
    if members == [] then Built([], counter)
    else
      var first := ProcessNode(members[0].value, Some(members[0].key), depth, |members| == 1, counter);
      var rest := ObjectChildren(members[1..], depth, first.counter);
      Built(first.elements + rest.elements, rest.counter)
  }

  /** The elements of an array, in order, unkeyed, the final one last. */
  function ArrayChildren(items: seq<JsonValue>, depth: nat, counter: nat): (r: Built)
    ensures r.elements == [] <==> items == []
    ensures counter <= r.counter
    ensures depth > 0 ==> r.counter == counter
    decreases items
  {
    if items == [] then Built([], counter)
    else
      var first := ProcessNode(items[0], None, depth, |items| == 1, counter);
      var rest := ArrayChildren(items[1..], depth, first.counter);
      Built(first.elements + rest.elements, rest.counter)
  }

  // ---------------------------------------------------------------------
  // The entry point and its fallback

  /** What `syntaxHighlight` returns: the tree inside the `json-viewer`
      container, or the escaped input. */
  datatype Rendered = Tree(elements: seq<Element>) | Escaped(text: string)

  /** `syntaxHighlight`. The outcome of `JSON.parse` on `json` is an input:
      `Some(value)` when it parses, `None` when it throws. The counter
      starts again at 1 for every parsed document. */
  function SyntaxHighlight(json: string, parsed: Option<JsonValue>): (r: Rendered)
    ensures parsed.None? ==> r.Escaped? && '<' !in r.text && '>' !in r.text
    ensures parsed.None? && NoMarkupChars(json) ==> r == Escaped(json)
    ensures parsed.Some? ==> r.Tree? && r.elements != [] && r.elements[0].Row?
    ensures parsed.Some? ==> r.elements[0].line.depth == 0 && r.elements[0].line.number == Some(1)
    ensures parsed.Some? ==> r.elements[0].line.key.None?
    ensures parsed.Some? ==> r.elements[|r.elements| - 1].Row? && !r.elements[|r.elements| - 1].line.hasComma
  {
    match parsed
    case Some(v) => Tree(ProcessNode(v, None, 0, true, 1).elements)
    case None => Escaped(EscapeHtml(json))
  }

  /** The module-level state of the source: the line counter that
      `getNextLineNumber` increments and `syntaxHighlight` resets. */
  class Highlighter {
    var lineCounter: nat

    constructor ()
      ensures lineCounter == 1
    {
      lineCounter := 1;
    }

    /** Whatever the counter held before, the rendering is the same: a
        parsed document resets it to 1 and leaves it one past the last
        number shown; unparsable input leaves it alone. */
    method Highlight(json: string, parsed: Option<JsonValue>) returns (r: Rendered)
      modifies this
      ensures r == SyntaxHighlight(json, parsed)
      ensures parsed.Some? ==> lineCounter == 1 + |Numbers(Flatten(r.elements))|
      ensures parsed.None? ==> lineCounter == old(lineCounter)
    {
      match parsed {
        case Some(v) =>
          lineCounter := 1;
          var built := ProcessNode(v, None, 0, true, lineCounter);
          lineCounter := built.counter;
          r := Tree(built.elements);
          NodeNumbering(v, None, 0, true, 1);
          RangeLength(1, built.counter);
        case None =>
          r := Escaped(EscapeHtml(json));
      }
    }
  }

  // ---------------------------------------------------------------------
  // Escaping: `.replace(/&/g, '&amp;').replace(/</g, '&lt;').replace(/>/g, '&gt;')`

  /** Replaces every occurrence of one character by a replacement text. */
  function ReplaceAll(s: string, c: char, replacement: string): (r: string)
    ensures c !in replacement ==> c !in r
    ensures forall d :: d in r ==> d in replacement || (d in s && d != c)
    ensures c !in s ==> r == s
  {
    if s == [] then ""
    else (if s[0] == c then replacement else [s[0]]) + ReplaceAll(s[1..], c, replacement)
  }

  /** The fallback for text that is not JSON: ampersands first, then the
      angle brackets. */
  function EscapeHtml(s: string): (r: string)
    ensures '<' !in r && '>' !in r
    ensures NoMarkupChars(s) ==> r == s
  {
    ReplaceAll(ReplaceAll(ReplaceAll(s, '&', "&amp;"), '<', "&lt;"), '>', "&gt;")
  }

  /** An independent, one-pass statement of the same escaping. */
  function EscapeChar(c: char): string {
    if c == '&' then "&amp;" else if c == '<' then "&lt;" else if c == '>' then "&gt;" else [c]
  }

  function EscapeEach(s: string): string {
    if s == [] then "" else EscapeChar(s[0]) + EscapeEach(s[1..])
  }

  /** Reads entities back: the inverse of the escaping. */
  function Unescape(t: string): string {
    if t == [] then ""
    else if "&amp;" <= t then "&" + Unescape(t[5..])
    else if "&lt;" <= t then "<" + Unescape(t[4..])
    else if "&gt;" <= t then ">" + Unescape(t[4..])
    else [t[0]] + Unescape(t[1..])
  }

  /** An ampersand at `i` opens one of the three entities. */
  predicate EntityAt(t: string, i: nat)
    requires i < |t|
  {
    "&amp;" <= t[i..] || "&lt;" <= t[i..] || "&gt;" <= t[i..]
  }

  // ---------------------------------------------------------------------
  // Reading the output

  /** The rows of a rendering in document order, groups opened in place. */
  function Flatten(els: seq<Element>): seq<Line>
    decreases els
  {
    if els == [] then [] else RowsOf(els[0]) + Flatten(els[1..])
  }

  function RowsOf(e: Element): seq<Line>
    decreases e
  {
    match e
    case Row(l) => [l]
    case Group(_, items) => Flatten(items)
  }

  /** The line numbers shown, in document order. */
  function Numbers(lines: seq<Line>): seq<nat> {
    if lines == [] then []
    else (if lines[0].number.Some? then [lines[0].number.value] else []) + Numbers(lines[1..])
  }

  /** `lo, lo + 1, ..., hi - 1`. */
  function Range(lo: nat, hi: nat): (r: seq<nat>)
    requires lo <= hi
    decreases hi - lo
  {
    if lo == hi then [] else [lo] + Range(lo + 1, hi)
  }

  lemma {:induction false} RangeLength(lo: nat, hi: nat)
    requires lo <= hi
    decreases hi - lo
    ensures |Range(lo, hi)| == hi - lo
  {
    if lo < hi {
      RangeLength(lo + 1, hi);
    }
  }

  lemma {:induction false} RangeConcat(lo: nat, mid: nat, hi: nat)
    requires lo <= mid <= hi
    ensures Range(lo, mid) + Range(mid, hi) == Range(lo, hi)
    decreases mid - lo
  {
    if lo < mid {
      RangeConcat(lo + 1, mid, hi);
    }
  }

  lemma {:induction false} FlattenConcat(a: seq<Element>, b: seq<Element>)
    ensures Flatten(a + b) == Flatten(a) + Flatten(b)
    decreases a
  {
    if a == [] {
      assert a + b == b;
    } else {
      assert (a + b)[0] == a[0];
      assert (a + b)[1..] == a[1..] + b;
      FlattenConcat(a[1..], b);
      calc {
        Flatten(a + b);
        RowsOf(a[0]) + Flatten(a[1..] + b);
        RowsOf(a[0]) + (Flatten(a[1..]) + Flatten(b));
        (RowsOf(a[0]) + Flatten(a[1..])) + Flatten(b);
      }
    }
  }

  lemma {:induction false} NumbersConcat(a: seq<Line>, b: seq<Line>)
    ensures Numbers(a + b) == Numbers(a) + Numbers(b)
  {
    if a == [] {
      assert a + b == b;
    } else {
      assert (a + b)[0] == a[0];
      assert (a + b)[1..] == a[1..] + b;
      NumbersConcat(a[1..], b);
    }
  }

  /** Every line of `lines` sits at depth `depth` or deeper, and exactly
      the depth-0 lines carry a number. */
  predicate NumberedAtDepthZero(lines: seq<Line>, depth: nat) {
    forall i :: 0 <= i < |lines| ==>
      lines[i].depth >= depth && (lines[i].number.Some? <==> lines[i].depth == 0)
  }

  // ---------------------------------------------------------------------
  // The shape of one node's output

  /** A primitive, `{}` or `[]` becomes exactly one plain row, at the
      node's depth, with its key, and a comma unless it is the last sibling. */
  lemma LeafShape(v: JsonValue, key: Option<string>, depth: nat, isLast: bool, counter: nat)
    requires !IsExpandable(v)
    ensures var b := ProcessNode(v, key, depth, isLast, counter);
      var n := NextLineNumber(depth, counter);
      |b.elements| == 1 && b.elements[0].Row? && b.counter == n.counter &&
      b.elements[0].line.depth == depth && b.elements[0].line.number == n.number &&
      b.elements[0].line.role == Plain && b.elements[0].line.key == key &&
      b.elements[0].line.hasComma == !isLast &&
      (IsEmptyCompound(v) ==> b.elements[0].line.token == EmptyBrackets(BracketOf(GetValueType(v)))) &&
      (!IsEmptyCompound(v) ==> b.elements[0].line.token == FormatPrimitive(v, GetValueType(v)))
  {
  }

  /** A non-empty object or array becomes an opening row without a comma,
      one group at the node's own depth holding the children, and a closing
      row with the matching bracket and a comma unless it is the last
      sibling. The opening row is numbered before any child. */
  lemma ExpandableShape(v: JsonValue, key: Option<string>, depth: nat, isLast: bool, counter: nat)
    requires IsExpandable(v)
    ensures var b := ProcessNode(v, key, depth, isLast, counter);
      var open := NextLineNumber(depth, counter);
      var children := Children(v, depth + 1, open.counter);
      var close := NextLineNumber(depth, children.counter);
      var bracket := BracketOf(GetValueType(v));
      b == Built([Row(Line(depth, open.number, Opening, key, OpenBracket(bracket), false)),
                  Group(depth, children.elements),
                  Row(Line(depth, close.number, Closing, None, CloseBracket(bracket), !isLast))],
                 close.counter)
  {
  }

  // ---------------------------------------------------------------------
  // Line numbering

  /** Numbers are handed out consecutively from the counter the walk starts
      with, only depth-0 rows carry one, and below the root the counter
      never moves. */
  lemma {:induction false} NodeNumbering(v: JsonValue, key: Option<string>, depth: nat, isLast: bool, counter: nat)
    ensures var b := ProcessNode(v, key, depth, isLast, counter);
      counter <= b.counter &&
      Numbers(Flatten(b.elements)) == Range(counter, b.counter) &&
      NumberedAtDepthZero(Flatten(b.elements), depth) &&
      (depth > 0 ==> b.counter == counter)
    decreases v, 2
  {
    if IsExpandable(v) {
      ExpandableNumbering(v, key, depth, isLast, counter);
    } else {
      LeafShape(v, key, depth, isLast, counter);
      var b := ProcessNode(v, key, depth, isLast, counter);
      assert Flatten(b.elements) == [b.elements[0].line];
      if depth == 0 {
        assert Range(counter, counter + 1) == [counter];
      }
    }
  }

  lemma {:induction false} ExpandableNumbering(v: JsonValue, key: Option<string>, depth: nat, isLast: bool, counter: nat)
    requires IsExpandable(v)
    ensures var b := ProcessNode(v, key, depth, isLast, counter);
      counter <= b.counter &&
      Numbers(Flatten(b.elements)) == Range(counter, b.counter) &&
      NumberedAtDepthZero(Flatten(b.elements), depth) &&
      (depth > 0 ==> b.counter == counter)
    decreases v, 1
  {
    var open := NextLineNumber(depth, counter);
    var children := Children(v, depth + 1, open.counter);
    ChildrenNumbering(v, depth + 1, open.counter);
    ExpandableShape(v, key, depth, isLast, counter);
    var b := ProcessNode(v, key, depth, isLast, counter);
    FlattenFramed(b.elements[0].line, depth, children.elements, b.elements[2].line);
    FramedNumbering(b.elements[0].line, Flatten(children.elements), b.elements[2].line, depth, counter);
  }

  /** An opening row and a closing row at `depth` around deeper, unnumbered
      rows: the two rows take the next numbers when `depth` is 0. */
  lemma FramedNumbering(opening: Line, inner: seq<Line>, closing: Line, depth: nat, counter: nat)
    requires opening.depth == depth && closing.depth == depth
    requires opening.number == NextLineNumber(depth, counter).number
    requires closing.number == NextLineNumber(depth, NextLineNumber(depth, counter).counter).number
    requires Numbers(inner) == [] && NumberedAtDepthZero(inner, depth + 1)
    ensures var last := NextLineNumber(depth, NextLineNumber(depth, counter).counter).counter;
      var lines := [opening] + inner + [closing];
      Numbers(lines) == Range(counter, last) && NumberedAtDepthZero(lines, depth)
  {
    var lines := [opening] + inner + [closing];
    NumbersFramed(opening, inner, closing);
    if depth == 0 {
      assert Range(counter + 1, counter + 2) == [counter + 1];
      assert Range(counter, counter + 2) == [counter, counter + 1];
    }
    forall i | 0 <= i < |lines|
      ensures lines[i].depth >= depth && (lines[i].number.Some? <==> lines[i].depth == 0)
    {
      if 0 < i < |lines| - 1 {
        assert lines[i] == inner[i - 1];
      }
    }
  }

  lemma ChildrenNumbering(v: JsonValue, depth: nat, counter: nat)
    requires v.JObject? || v.JArray?
    requires depth > 0
    ensures var b := Children(v, depth, counter);
      b.counter == counter && Numbers(Flatten(b.elements)) == [] &&
      NumberedAtDepthZero(Flatten(b.elements), depth)
    decreases v, 0
  {
    if v.JObject? {
      ObjectChildrenNumbering(v.members, depth, counter);
    } else {
      ArrayChildrenNumbering(v.items, depth, counter);
    }
  }

  lemma FlattenFramed(opening: Line, depth: nat, items: seq<Element>, closing: Line)
    ensures Flatten([Row(opening), Group(depth, items), Row(closing)]) == [opening] + Flatten(items) + [closing]
  {
    var els := [Row(opening), Group(depth, items), Row(closing)];
    assert els[1..][1..] == [Row(closing)];
    assert els[1..][1..][1..] == [];
    assert Flatten(els[1..][1..]) == [closing];
    assert Flatten(els[1..]) == Flatten(items) + [closing];
    assert Flatten(els) == [opening] + Flatten(els[1..]);
  }

  lemma NumbersFramed(opening: Line, inner: seq<Line>, closing: Line)
    ensures Numbers([opening] + inner + [closing]) == Numbers([opening]) + Numbers(inner) + Numbers([closing])
  {
    NumbersConcat([opening] + inner, [closing]);
    NumbersConcat([opening], inner);
  }

  /** Children are at depth 1 or more: they carry no number and leave the
      counter where it was. */
  lemma {:induction false} ObjectChildrenNumbering(members: seq<Member>, depth: nat, counter: nat)
    requires depth > 0
    ensures var b := ObjectChildren(members, depth, counter);
      b.counter == counter && Numbers(Flatten(b.elements)) == [] &&
      NumberedAtDepthZero(Flatten(b.elements), depth)
    decreases members
  {
    if members != [] {
      var first := ProcessNode(members[0].value, Some(members[0].key), depth, |members| == 1, counter);
      NodeNumbering(members[0].value, Some(members[0].key), depth, |members| == 1, counter);
      ObjectChildrenNumbering(members[1..], depth, first.counter);
      var rest := ObjectChildren(members[1..], depth, first.counter);
      FlattenConcat(first.elements, rest.elements);
      NumbersConcat(Flatten(first.elements), Flatten(rest.elements));
    }
  }

  lemma {:induction false} ArrayChildrenNumbering(items: seq<JsonValue>, depth: nat, counter: nat)
    requires depth > 0
    ensures var b := ArrayChildren(items, depth, counter);
      b.counter == counter && Numbers(Flatten(b.elements)) == [] &&
      NumberedAtDepthZero(Flatten(b.elements), depth)
    decreases items
  {
    if items != [] {
      var first := ProcessNode(items[0], None, depth, |items| == 1, counter);
      NodeNumbering(items[0], None, depth, |items| == 1, counter);
      ArrayChildrenNumbering(items[1..], depth, first.counter);
      var rest := ArrayChildren(items[1..], depth, first.counter);
      FlattenConcat(first.elements, rest.elements);
      NumbersConcat(Flatten(first.elements), Flatten(rest.elements));
    }
  }

  // ---------------------------------------------------------------------
  // Structure: nesting, brackets, commas, keys

  /** A token that stands on a plain row: a primitive or an empty pair. */
  predicate IsLeafToken(tok: Token) {
    !tok.OpenBracket? && !tok.CloseBracket?
  }

  /** A run of sibling nodes at `depth`, each rendered the way the walk
      renders one node: either one plain row, or an opening row, then a
      non-empty group at the same depth holding the next level's siblings,
      then the closing row with the matching bracket. An opening row never
      ends with a comma; the plain or closing row of a node does exactly
      when a sibling follows it; the nodes of an object carry keys, those of
      an array do not, and a closing row never does. */
  predicate Siblings(els: seq<Element>, depth: nat, keyed: bool)
    decreases els
  {
    if els == [] then true
    else if !els[0].Row? then false
    else
      var first := els[0].line;
      first.depth == depth && first.key.Some? == keyed &&
      match first.role
      case Plain =>
        IsLeafToken(first.token) && first.hasComma == (|els| > 1) &&
        Siblings(els[1..], depth, keyed)
      case Opening =>
        |els| >= 3 && first.token.OpenBracket? && !first.hasComma &&
        GroupOf(els[1], depth, first.token.bracket) &&
        els[2].Row? &&
        els[2].line == Line(depth, els[2].line.number, Closing, None,
                            CloseBracket(first.token.bracket), |els| > 3) &&
        Siblings(els[3..], depth, keyed)
      case Closing => false
  }

  /** The content group of a node at `depth` opened with `bracket`. */
  predicate GroupOf(g: Element, depth: nat, bracket: Bracket)
    decreases g
  {
    g.Group? && g.depth == depth && g.items != [] &&
    Siblings(g.items, depth + 1, bracket == Brace)
  }

  /** One node's output placed before the siblings that follow it keeps the
      run well formed; it ends with a comma exactly when siblings follow. */
  lemma {:induction false} NodeWellFormed(v: JsonValue, key: Option<string>, depth: nat, isLast: bool,
                                         counter: nat, rest: seq<Element>)
    requires Siblings(rest, depth, key.Some?)
    requires rest == [] <==> isLast
    ensures ProcessNode(v, key, depth, isLast, counter).elements != []
    ensures Siblings(ProcessNode(v, key, depth, isLast, counter).elements + rest, depth, key.Some?)
    decreases v, 2
  {
    var b := ProcessNode(v, key, depth, isLast, counter);
    var els := b.elements + rest;
    if IsExpandable(v) {
      ExpandableShape(v, key, depth, isLast, counter);
      var open := NextLineNumber(depth, counter);
      ChildrenWellFormed(v, depth + 1, open.counter);
      assert els[3..] == rest;
    } else {
      LeafShape(v, key, depth, isLast, counter);
      assert els[1..] == rest;
    }
  }

  lemma {:induction false} ChildrenWellFormed(v: JsonValue, depth: nat, counter: nat)
    requires v.JObject? || v.JArray?
    ensures var b := Children(v, depth, counter);
      (b.elements == [] <==> IsEmptyCompound(v)) && Siblings(b.elements, depth, v.JObject?)
    decreases v, 1
  {
    if v.JObject? {
      ObjectChildrenWellFormed(v.members, depth, counter);
    } else {
      ArrayChildrenWellFormed(v.items, depth, counter);
    }
  }

  lemma {:induction false} ObjectChildrenWellFormed(members: seq<Member>, depth: nat, counter: nat)
    ensures var b := ObjectChildren(members, depth, counter);
      (b.elements == [] <==> members == []) && Siblings(b.elements, depth, true)
    decreases members
  {
    if members != [] {
      var first := ProcessNode(members[0].value, Some(members[0].key), depth, |members| == 1, counter);
      ObjectChildrenWellFormed(members[1..], depth, first.counter);
      var rest := ObjectChildren(members[1..], depth, first.counter);
      NodeWellFormed(members[0].value, Some(members[0].key), depth, |members| == 1, counter, rest.elements);
    }
  }

  lemma {:induction false} ArrayChildrenWellFormed(items: seq<JsonValue>, depth: nat, counter: nat)
    ensures var b := ArrayChildren(items, depth, counter);
      (b.elements == [] <==> items == []) && Siblings(b.elements, depth, false)
    decreases items
  {
    if items != [] {
      var first := ProcessNode(items[0], None, depth, |items| == 1, counter);
      ArrayChildrenWellFormed(items[1..], depth, first.counter);
      var rest := ArrayChildren(items[1..], depth, first.counter);
      NodeWellFormed(items[0], None, depth, |items| == 1, counter, rest.elements);
    }
  }

  // ---------------------------------------------------------------------
  // Balanced brackets, read off the flat row sequence

  /** Reads rows left to right with a stack of open brackets: an opening
      row pushes, a closing row must pop the same bracket. */
  function Scan(lines: seq<Line>, stack: seq<Bracket>): Option<seq<Bracket>> {
    if lines == [] then Some(stack)
    else
      var l := lines[0];
      if l.role == Opening && l.token.OpenBracket? then Scan(lines[1..], [l.token.bracket] + stack)
      else if l.role == Closing then
        if l.token.CloseBracket? && stack != [] && stack[0] == l.token.bracket then Scan(lines[1..], stack[1..])
        else None
      else Scan(lines[1..], stack)
  }

  lemma {:induction false} ScanConcat(a: seq<Line>, b: seq<Line>, stack: seq<Bracket>)
    requires Scan(a, stack).Some?
    ensures Scan(a + b, stack) == Scan(b, Scan(a, stack).value)
  {
    if a == [] {
      assert a + b == b;
    } else {
      assert (a + b)[0] == a[0];
      assert (a + b)[1..] == a[1..] + b;
      var l := a[0];
      if l.role == Opening && l.token.OpenBracket? {
        ScanConcat(a[1..], b, [l.token.bracket] + stack);
      } else if l.role == Closing {
        ScanConcat(a[1..], b, stack[1..]);
      } else {
        ScanConcat(a[1..], b, stack);
      }
    }
  }

  /** In a well-formed run every closing row closes the innermost open
      bracket, with the same kind of bracket, and nothing is left open. */
  lemma {:induction false} SiblingsBalanced(els: seq<Element>, depth: nat, keyed: bool, stack: seq<Bracket>)
    requires Siblings(els, depth, keyed)
    ensures Scan(Flatten(els), stack) == Some(stack)
    decreases els
  {
    if els != [] {
      var first := els[0].line;
      if first.role == Plain {
        assert Flatten(els) == [first] + Flatten(els[1..]);
        SiblingsBalanced(els[1..], depth, keyed, stack);
        ScanConcat([first], Flatten(els[1..]), stack);
      } else {
        var bracket := first.token.bracket;
        var inner := Flatten(els[1].items);
        var closing := els[2].line;
        assert els == [els[0], els[1], els[2]] + els[3..];
        FlattenConcat([els[0], els[1], els[2]], els[3..]);
        FlattenFramed(first, depth, els[1].items, closing);
        var pushed := [bracket] + stack;
        SiblingsBalanced(els[1].items, depth + 1, bracket == Brace, pushed);
        SiblingsBalanced(els[3..], depth, keyed, stack);
        assert Scan([first], stack) == Some(pushed);
        ScanConcat([first], inner, stack);
        ScanConcat([first] + inner, [closing], stack);
        assert Scan([closing], pushed) == Some(stack);
        ScanConcat([first] + inner + [closing], Flatten(els[3..]), stack);
      }
    }
  }

  // ---------------------------------------------------------------------
  // Children in document order

  /** Concatenation of a sequence of row runs. */
  function ConcatAll(runs: seq<seq<Element>>): seq<Element> {
    if runs == [] then [] else runs[0] + ConcatAll(runs[1..])
  }

  /** Below the root the children of an object are exactly the renderings
      of its members, in `Object.entries` order, each one level deeper,
      keyed, and only the final one marked last. */
  lemma {:induction false} ObjectChildrenInOrder(members: seq<Member>, depth: nat, counter: nat)
    requires depth > 0
    ensures ObjectChildren(members, depth, counter).elements ==
      ConcatAll(seq(|members|, i requires 0 <= i < |members| =>
        ProcessNode(members[i].value, Some(members[i].key), depth, i == |members| - 1, counter).elements))
    decreases members
  {
    var runs := seq(|members|, i requires 0 <= i < |members| =>
      ProcessNode(members[i].value, Some(members[i].key), depth, i == |members| - 1, counter).elements);
    if members != [] {
      NodeNumbering(members[0].value, Some(members[0].key), depth, |members| == 1, counter);
      ObjectChildrenInOrder(members[1..], depth, counter);
      var tail := members[1..];
      assert runs[1..] == seq(|tail|, i requires 0 <= i < |tail| =>
        ProcessNode(tail[i].value, Some(tail[i].key), depth, i == |tail| - 1, counter).elements);
    }
  }

  /** The same for the elements of an array, by index and without keys. */
  lemma {:induction false} ArrayChildrenInOrder(items: seq<JsonValue>, depth: nat, counter: nat)
    requires depth > 0
    ensures ArrayChildren(items, depth, counter).elements ==
      ConcatAll(seq(|items|, i requires 0 <= i < |items| =>
        ProcessNode(items[i], None, depth, i == |items| - 1, counter).elements))
    decreases items
  {
    var runs := seq(|items|, i requires 0 <= i < |items| =>
      ProcessNode(items[i], None, depth, i == |items| - 1, counter).elements);
    if items != [] {
      NodeNumbering(items[0], None, depth, |items| == 1, counter);
      ArrayChildrenInOrder(items[1..], depth, counter);
      var tail := items[1..];
      assert runs[1..] == seq(|tail|, i requires 0 <= i < |tail| =>
        ProcessNode(tail[i], None, depth, i == |tail| - 1, counter).elements);
    }
  }

  // ---------------------------------------------------------------------
  // The whole document

  /** A parsed document renders as one well-formed root node whose rows
      are numbered from 1: a primitive, `{}` or `[]` gives one row numbered
      1; anything else gives an opening row numbered 1 and a closing row
      numbered 2, with every row in between at depth 1 or more and without
      a number. The root is the last (only) sibling, so its rows carry no
      comma. */
  lemma {:induction false} RootRendering(json: string, v: JsonValue)
    ensures var r := SyntaxHighlight(json, Some(v));
      var lines := Flatten(r.elements);
      r.Tree? && Siblings(r.elements, 0, false) &&
      NumberedAtDepthZero(lines, 0) &&
      Numbers(lines) == (if IsExpandable(v) then [1, 2] else [1]) &&
      |lines| >= 1 && lines[0].number == Some(1) && !lines[|lines| - 1].hasComma &&
      (!IsExpandable(v) ==> |lines| == 1 && lines[0].role == Plain) &&
      (IsExpandable(v) ==>
        lines[0].role == Opening && lines[|lines| - 1].role == Closing &&
        lines[|lines| - 1].number == Some(2) &&
        forall i :: 0 < i < |lines| - 1 ==> lines[i].depth > 0 && lines[i].number.None?)
  {
    var b := ProcessNode(v, None, 0, true, 1);
    NodeWellFormed(v, None, 0, true, 1, []);
    assert b.elements + [] == b.elements;
    NodeNumbering(v, None, 0, true, 1);
    if IsExpandable(v) {
      ExpandableShape(v, None, 0, true, 1);
      var children := Children(v, 1, 2);
      ChildrenNumbering(v, 1, 2);
      FlattenFramed(b.elements[0].line, 0, children.elements, b.elements[2].line);
      assert Range(2, 3) == [2];
      assert Range(1, 3) == [1, 2];
    } else {
      LeafShape(v, None, 0, true, 1);
      assert Flatten(b.elements) == [b.elements[0].line];
      assert Range(1, 2) == [1];
    }
  }

  // ---------------------------------------------------------------------
  // The fallback escaper

  lemma {:induction false} ReplaceAllConcat(a: string, b: string, c: char, replacement: string)
    ensures ReplaceAll(a + b, c, replacement) == ReplaceAll(a, c, replacement) + ReplaceAll(b, c, replacement)
  {
    if a == [] {
      assert a + b == b;
    } else {
      assert (a + b)[1..] == a[1..] + b;
      ReplaceAllConcat(a[1..], b, c, replacement);
    }
  }

  lemma {:induction false} ReplaceAllAbsent(s: string, c: char, replacement: string)
    requires c !in s
    ensures ReplaceAll(s, c, replacement) == s
  {
    if s != [] {
      ReplaceAllAbsent(s[1..], c, replacement);
    }
  }

  lemma ReplaceAllOne(c: char, x: char, replacement: string)
    ensures ReplaceAll([c], x, replacement) == if c == x then replacement else [c]
  {
    assert [c][1..] == [];
    var head := if c == x then replacement else [c];
    assert ReplaceAll([c], x, replacement) == head + ReplaceAll([], x, replacement);
    assert head + "" == head;
  }

  lemma EscapeHtmlOneChar(c: char)
    ensures EscapeHtml([c]) == EscapeChar(c)
  {
    ReplaceAllOne(c, '&', "&amp;");
    if c == '&' {
      ReplaceAllAbsent("&amp;", '<', "&lt;");
      ReplaceAllAbsent("&amp;", '>', "&gt;");
    } else {
      ReplaceAllOne(c, '<', "&lt;");
      if c == '<' {
        ReplaceAllAbsent("&lt;", '>', "&gt;");
      } else {
        ReplaceAllOne(c, '>', "&gt;");
      }
    }
  }

  lemma EscapeHtmlConcat(a: string, b: string)
    ensures EscapeHtml(a + b) == EscapeHtml(a) + EscapeHtml(b)
  {
    ReplaceAllConcat(a, b, '&', "&amp;");
    ReplaceAllConcat(ReplaceAll(a, '&', "&amp;"), ReplaceAll(b, '&', "&amp;"), '<', "&lt;");
    ReplaceAllConcat(ReplaceAll(ReplaceAll(a, '&', "&amp;"), '<', "&lt;"),
                     ReplaceAll(ReplaceAll(b, '&', "&amp;"), '<', "&lt;"), '>', "&gt;");
  }

  /** The three chained `replace` calls escape each character on its own:
      because `&` goes first, the ampersands the later passes introduce are
      never escaped twice. */
  lemma {:induction false} EscapeHtmlIsPerCharacter(s: string)
    ensures EscapeHtml(s) == EscapeEach(s)
  {
    if s != [] {
      assert s == [s[0]] + s[1..];
      EscapeHtmlConcat([s[0]], s[1..]);
      EscapeHtmlOneChar(s[0]);
      EscapeHtmlIsPerCharacter(s[1..]);
    }
  }

  lemma {:induction false} EscapeEachConcat(a: string, b: string)
    ensures EscapeEach(a + b) == EscapeEach(a) + EscapeEach(b)
  {
    if a == [] {
      assert a + b == b;
    } else {
      assert (a + b)[1..] == a[1..] + b;
      EscapeEachConcat(a[1..], b);
    }
  }

  /** The characters the fallback leaves alone. */
  predicate NoMarkupChars(s: string) {
    forall i :: 0 <= i < |s| ==> s[i] != '&' && s[i] != '<' && s[i] != '>'
  }

  /** One escaped character, whatever follows it: no angle bracket, and
      an ampersand only at the start of an entity. */
  lemma EscapeCharShape(c: char, tail: string)
    ensures var head := EscapeChar(c);
      (forall i :: 0 <= i < |head| ==> head[i] != '<' && head[i] != '>') &&
      (forall i :: 0 <= i < |head| && head[i] == '&' ==> EntityAt(head + tail, i))
  {
    var head := EscapeChar(c);
    if c == '&' || c == '<' || c == '>' {
      assert head <= (head + tail)[0..];
    }
  }

  /** An entity in the tail is still one after a prefix. */
  lemma EntityAfterPrefix(head: string, tail: string, i: nat)
    requires |head| <= i < |head + tail|
    requires EntityAt(tail, i - |head|)
    ensures EntityAt(head + tail, i)
  {
    assert (head + tail)[i..] == tail[i - |head|..];
  }

  /** The escaped text: no angle bracket survives, every ampersand opens an
      entity, text without `&`, `<` or `>` comes back unchanged, and the
      entities read back to exactly the input. */
  lemma {:induction false} EscapeEachProperties(s: string)
    ensures forall i :: 0 <= i < |EscapeEach(s)| ==> EscapeEach(s)[i] != '<' && EscapeEach(s)[i] != '>'
    ensures forall i :: 0 <= i < |EscapeEach(s)| && EscapeEach(s)[i] == '&' ==> EntityAt(EscapeEach(s), i)
    ensures NoMarkupChars(s) ==> EscapeEach(s) == s
  {
    if s != [] {
      EscapeEachProperties(s[1..]);
      var head, tail := EscapeChar(s[0]), EscapeEach(s[1..]);
      var r := head + tail;
      assert r == EscapeEach(s);
      EscapeCharShape(s[0], tail);
      forall i | 0 <= i < |r|
        ensures r[i] != '<' && r[i] != '>'
      {
        if i >= |head| {
          assert r[i] == tail[i - |head|];
        }
      }
      forall i | 0 <= i < |r| && r[i] == '&'
        ensures EntityAt(r, i)
      {
        if i >= |head| {
          assert r[i] == tail[i - |head|];
          EntityAfterPrefix(head, tail, i);
        }
      }
    }
  }

  lemma UnescapeOneEntity(c: char, after: string)
    ensures Unescape(EscapeChar(c) + after) == [c] + Unescape(after)
  {
    var t := EscapeChar(c) + after;
    if c == '&' {
      assert "&amp;" <= t && t[5..] == after;
    } else if c == '<' {
      assert t[1] == 'l';
      assert "&lt;" <= t && t[4..] == after;
    } else if c == '>' {
      assert t[1] == 'g';
      assert "&gt;" <= t && t[4..] == after;
    } else {
      assert t[0] == c && t[1..] == after;
    }
  }

  /** Unescaping undoes escaping, whatever text follows. */
  lemma {:induction false} UnescapeAfterEscape(s: string, rest: string)
    ensures Unescape(EscapeEach(s) + rest) == s + Unescape(rest)
  {
    if s == [] {
      assert EscapeEach(s) + rest == rest;
    } else {
      var after := EscapeEach(s[1..]) + rest;
      calc {
        Unescape(EscapeEach(s) + rest);
        { assert EscapeEach(s) + rest == EscapeChar(s[0]) + after; }
        Unescape(EscapeChar(s[0]) + after);
        { UnescapeOneEntity(s[0], after); }
        [s[0]] + Unescape(after);
        { UnescapeAfterEscape(s[1..], rest); }
        [s[0]] + (s[1..] + Unescape(rest));
        { assert s == [s[0]] + s[1..]; }
        s + Unescape(rest);
      }
    }
  }

  /** Text that is not JSON comes back without structure, escaped: no `<`
      or `>` is left, every `&` begins `&amp;`, `&lt;` or `&gt;`, text
      without those three characters is returned unchanged, and the
      entities decode to exactly the input. */
  lemma FallbackEscapes(json: string)
    ensures var r := SyntaxHighlight(json, None);
      r.Escaped? &&
      (forall i :: 0 <= i < |r.text| ==> r.text[i] != '<' && r.text[i] != '>') &&
      (forall i :: 0 <= i < |r.text| && r.text[i] == '&' ==> EntityAt(r.text, i)) &&
      (NoMarkupChars(json) ==> r.text == json) &&
      Unescape(r.text) == json
  {
    EscapeHtmlIsPerCharacter(json);
    EscapeEachProperties(json);
    UnescapeAfterEscape(json, "");
    assert EscapeEach(json) + "" == EscapeEach(json);
  }

  // ---------------------------------------------------------------------
  // Keys and string values reach the markup unescaped

  /** As written, a string value is interpolated into the row between its
      quotes as it is: a `<` in the value is a `<` in the markup, where the
      browser reads it as the start of a tag. */
  lemma StringValueReachesMarkup(json: string, s: string)
    requires '<' in s
    ensures var r := SyntaxHighlight(json, Some(JString(s)));
      r.Tree? && |Flatten(r.elements)| == 1 && '<' in LineText(Flatten(r.elements)[0])
  {
    var l := Line(0, Some(1), Plain, None, StringText(s), false);
    assert ProcessNode(JString(s), None, 0, true, 1).elements == [Row(l)];
    assert Flatten([Row(l)]) == [l];
    assert LineText(l) == "" + "" + ("\"" + s + "\"") + "";
  }

  /** The same holds for keys: the first row of a member whose key holds
      `<` carries that `<` into the markup. */
  lemma KeyReachesMarkup(v: JsonValue, k: string, depth: nat, isLast: bool, counter: nat)
    requires '<' in k
    ensures var b := ProcessNode(v, Some(k), depth, isLast, counter);
      b.elements != [] && b.elements[0].Row? && '<' in LineText(b.elements[0].line)
  {
    if IsExpandable(v) {
      ExpandableShape(v, Some(k), depth, isLast, counter);
    } else {
      LeafShape(v, Some(k), depth, isLast, counter);
    }
    var l := ProcessNode(v, Some(k), depth, isLast, counter).elements[0].line;
    assert l.key == Some(k);
    var text := LineText(l);
    assert "\"" + k + "\": " <= text[2 * depth..];
    var j :| 0 <= j < |k| && k[j] == '<';
    assert text[2 * depth..][1 + j] == '<';
    assert text[2 * depth + 1 + j] == '<';
  }

  /** Keys and string values with the fallback's escaping applied: the
      intended rendering. */
  function SafeKeyPrefix(key: Option<string>): (r: string)
    ensures '<' !in r && '>' !in r
  {
    match key
    case None => ""
    case Some(k) =>
      EscapeEachProperties(k);
      "\"" + EscapeEach(k) + "\": "
  }

  function SafeTokenText(tok: Token): (r: string)
    ensures '<' !in r && '>' !in r
  {
    match tok
    case StringText(s) =>
      EscapeEachProperties(s);
      "\"" + EscapeEach(s) + "\""
    case _ => TokenText(tok)
  }

  /** The row text with keys and string values escaped: indentation,
      prefix, token and comma as in `LineText`, and no angle bracket. */
  function SafeLineText(l: Line): (r: string)
    ensures '<' !in r && '>' !in r
    ensures |r| > 2 * l.depth && forall i :: 0 <= i < 2 * l.depth ==> r[i] == ' '
    ensures (r[|r| - 1] == ',') <==> l.hasComma
  {
    var indent := Indentation(l.depth);
    var token := SafeTokenText(l.token);
    assert |token| >= 1 && token[|token| - 1] != ',';
    AssembledLine(indent, SafeKeyPrefix(l.key), token, l.hasComma);
    indent + SafeKeyPrefix(l.key) + token + (if l.hasComma then "," else "")
  }

  lemma TokenTextPlain(tok: Token)
    requires !tok.StringText?
    ensures NoMarkupChars(TokenText(tok))
  {
  }

  lemma EscapeEachPlain(s: string)
    requires NoMarkupChars(s)
    ensures EscapeEach(s) == s
  {
    EscapeEachProperties(s);
  }

  /** Escaping keys and string values is escaping the whole row text,
      because every other piece of a row is free of `&`, `<` and `>`. */
  lemma {:induction false} SafeLineTextIsEscaped(l: Line)
    ensures SafeLineText(l) == EscapeEach(LineText(l))
  {
    var indent := Indentation(l.depth);
    var comma := if l.hasComma then "," else "";
    EscapeEachPlain(indent);
    EscapeEachPlain(comma);
    EscapeEachPlain("\"");
    EscapeEachPlain("\": ");
    assert EscapeEach(KeyPrefix(l.key)) == SafeKeyPrefix(l.key) by {
      if l.key.Some? {
        var k := l.key.value;
        EscapeEachConcat("\"" + k, "\": ");
        EscapeEachConcat("\"", k);
      }
    }
    assert EscapeEach(TokenText(l.token)) == SafeTokenText(l.token) by {
      if l.token.StringText? {
        var s := l.token.s;
        EscapeEachConcat("\"" + s, "\"");
        EscapeEachConcat("\"", s);
      } else {
        TokenTextPlain(l.token);
        EscapeEachPlain(TokenText(l.token));
      }
    }
    EscapeEachConcat(indent + KeyPrefix(l.key) + TokenText(l.token), comma);
    EscapeEachConcat(indent + KeyPrefix(l.key), TokenText(l.token));
    EscapeEachConcat(indent, KeyPrefix(l.key));
  }

  /** The corrected row text never holds `<` or `>`, reads back to the
      text the source shows, and differs from it only where a key or a
      string value holds `&`, `<` or `>`. */
  lemma SafeLineTextProperties(l: Line)
    ensures var r := SafeLineText(l);
      (forall i :: 0 <= i < |r| ==> r[i] != '<' && r[i] != '>') &&
      Unescape(r) == LineText(l) &&
      (NoMarkupChars(LineText(l)) ==> r == LineText(l))
  {
    SafeLineTextIsEscaped(l);
    EscapeEachProperties(LineText(l));
    UnescapeAfterEscape(LineText(l), "");
    assert EscapeEach(LineText(l)) + "" == EscapeEach(LineText(l));
  }
}
