// The diagram mappers and the key generator (src/components/diagram/utils.ts):
// entities and links become the canvas's nodes and edges, and new links get a
// UUID-shaped key.

module Utils {
  import opened Types
  import opened Numbers

  /** A canvas node position; a coordinate that did not parse is NaN. */
  datatype XYPosition = XYPosition(x: JsNumber, y: JsNumber)

  /** A canvas node (`CustomNodeType`); `nodeLabel` is its `data.label`. */
  datatype FlowNode = FlowNode(
    id: string,
    position: XYPosition,
    nodeLabel: string,
    items: seq<Item>,
    inheritedItems: Option<seq<Item>>,
    nodeType: string)

  /** A canvas edge (`CustomEdgeData`) with its two labels; `fromLabel` is
      its `data.label`. */
  datatype FlowEdge = FlowEdge(
    id: string,
    source: string,
    target: string,
    fromLabel: Option<string>,
    toLabel: Option<string>,
    edgeType: string)

  /** The position `nodeMapper` reads from a `loc` string: a falsy `loc` is
      (0, 0); otherwise `parseInt` of the first and of the second
      space-separated piece (a missing second piece parses to NaN). */
  function PositionOf(loc: Option<string>): XYPosition {
    if !Truthy(loc) then XYPosition(Finite(0), Finite(0))
    else
      var parts := Split(loc.value, ' ');
      XYPosition(ParseInt(parts[0]), if |parts| > 1 then ParseInt(parts[1]) else NaN)
  }

  /** The `loc` string the canvas writes for a position: `${x} ${y}`. */
  function LocString(x: int, y: int): string {
    IntToString(x) + " " + IntToString(y)
  }

  /** `nodeMapper`. */
  function NodeMapper(node: Entity): (n: FlowNode)
    ensures n.id == node.key && n.nodeLabel == node.key && n.nodeType == "custom"
    ensures n.items == node.items && n.inheritedItems == node.inheritedItems
    ensures !Truthy(node.loc) ==> n.position == XYPosition(Finite(0), Finite(0))
  {
    FlowNode(node.key, PositionOf(node.loc), node.key, node.items, node.inheritedItems, "custom")
  }

  /** Round trip: the `loc` the canvas writes for integers x and y maps back
      to the node position (x, y). */
  lemma LocRoundTrip(node: Entity, x: int, y: int)
    requires node.loc == Some(LocString(x, y))
    ensures NodeMapper(node).position == XYPosition(Finite(x), Finite(y))
  {
    IntToStringChars(x);
    IntToStringChars(y);
    SplitPair(IntToString(x), ' ', IntToString(y));
    ParseIntRoundTrip(x);
    ParseIntRoundTrip(y);
  }

  /** A `loc` without a space has no second piece, so y is NaN, not 0. */
  lemma LocWithoutSpaceGivesNaN(node: Entity)
    requires Truthy(node.loc) && ' ' !in node.loc.value
    ensures NodeMapper(node).position.y == NaN
  {
    SplitNoSeparator(node.loc.value, ' ');
  }

  /** A malformed `loc` is not defaulted to (0, 0): "a b" maps to (NaN, NaN). */
  lemma MalformedLocGivesNaN()
    ensures PositionOf(Some("a b")) == XYPosition(NaN, NaN)
  {
    assert "a b" == "a" + [' '] + "b";
    SplitPair("a", ' ', "b");
  }

  /** `edgeMapper`. */
  function EdgeMapper(link: LinkData): (e: FlowEdge)
    ensures e.id == link.key && e.source == link.from && e.target == link.to
    ensures e.fromLabel == link.text && e.toLabel == link.toText && e.edgeType == "custom"
  {
    FlowEdge(link.key, link.from, link.to, link.text, link.toText, "custom")
  }

  /** The link an edge stands for. */
  function EdgeLink(e: FlowEdge): LinkData {
    LinkData(e.id, e.source, e.target, e.fromLabel, e.toLabel)
  }

  /** `edgeMapper` loses nothing: the link can be read back from the edge, so
      distinct links give distinct edges. */
  lemma EdgeMapperInvertible(l1: LinkData, l2: LinkData)
    ensures EdgeLink(EdgeMapper(l1)) == l1
    ensures EdgeMapper(l1) == EdgeMapper(l2) ==> l1 == l2
  {
  }

  // ---- generateUUID ----

  /** The template `generateUUID` fills in. */
  const UuidTemplate: string := "xxxxxxxx-xxxx-4xxx-yxxx-xxxxxxxxxxxx"

  /** The positions of the dashes. */
  predicate IsDashPosition(i: int) { i == 8 || i == 13 || i == 18 || i == 23 }

  /** The template character at position i, spelled out. */
  function TemplateAt(i: nat): char
    requires i < 36
  {
    if IsDashPosition(i) then '-' else if i == 14 then '4' else if i == 19 then 'y' else 'x'
  }

  lemma TemplateSpelledOut()
    ensures |UuidTemplate| == 36
    ensures forall i :: 0 <= i < 36 ==> UuidTemplate[i] == TemplateAt(i)
  {
  }

  /** A random digit 0..15 (`(time + random * 16) % 16 | 0`). */
  type Nibble = n: int | 0 <= n < 16

  /** How many placeholders precede position i of the template. */
  function PlaceholdersBefore(i: nat): nat
    requires i <= 36
  {
    i - (if i > 23 then 4 else if i > 18 then 3 else if i > 13 then 2 else if i > 8 then 1 else 0)
      - (if i > 14 then 1 else 0)
  }

  /** `.toString(16)` of a nibble. */
  function HexDigit(n: Nibble): char {
    "0123456789abcdef"[n]
  }

  predicate IsHexDigit(c: char) {
    '0' <= c <= '9' || 'a' <= c <= 'f'
  }

  /** `(r & 0x3) | 0x8`: the variant digit. */
  function VariantNibble(r: Nibble): Nibble {
    (((r as bv8) & 0x3) | 0x8) as int
  }

  /** The shape of a version-4 UUID at position i. */
  predicate ShapeAt(i: nat, c: char) {
    if IsDashPosition(i) then c == '-'
    else if i == 14 then c == '4'
    else if i == 19 then c == '8' || c == '9' || c == 'a' || c == 'b'
    else IsHexDigit(c)
  }

  /** `generateUUID`, fed with the 31 random digits it draws, one per
      placeholder, in order: 36 characters, dashes at 8, 13, 18 and 23, '4' at
      14, one of 8/9/a/b at 19, and each `x` the hex digit of its draw. */
  method GenerateUuid(nibbles: seq<Nibble>) returns (uuid: string)
    requires |nibbles| == 31
    ensures |uuid| == 36
    ensures forall i :: 0 <= i < 36 ==> ShapeAt(i, uuid[i])
    ensures forall i :: 0 <= i < 36 && TemplateAt(i) == 'x' ==> uuid[i] == HexDigit(nibbles[PlaceholdersBefore(i)])
  {
    TemplateSpelledOut();
    uuid := "";
    var k := 0;
    for i := 0 to |UuidTemplate|
      invariant |uuid| == i
      invariant k == PlaceholdersBefore(i)
      invariant forall j :: 0 <= j < i ==> ShapeAt(j, uuid[j])
      invariant forall j :: 0 <= j < i && TemplateAt(j) == 'x' ==> uuid[j] == HexDigit(nibbles[PlaceholdersBefore(j)])
    {
      var c := UuidTemplate[i];
      if c == 'x' {
        uuid := uuid + [HexDigit(nibbles[k])];
        k := k + 1;
      } else if c == 'y' {
        uuid := uuid + [HexDigit(VariantNibble(nibbles[k]))];
        k := k + 1;
      } else {
        uuid := uuid + [c];
      }
    }
  }
}
