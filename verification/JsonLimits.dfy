/** The bounded traversal of a parsed JSON event body. */
module JsonLimits {
  datatype Json = Null | Bool | Number | Text(text: string) | Array(values: seq<Json>) | Object(members: seq<Member>)

  datatype Member = Member(key: string, value: Json)

  const MAX_NODES: nat := 256
  const MAX_DEPTH: nat := 16
  const MAX_TEXT: nat := 65_536
  const MAX_KEY: nat := 128
  const USIZE_MAX: nat := 0xffff_ffff_ffff_ffff

  /** Total size of a tree: nodes, height, text and key bytes, and whether every key is short. */
  datatype Size = Size(nodes: nat, depth: nat, text: nat, keysFit: bool) {
    function Plus(other: Size): Size {
      var deeper := if depth < other.depth then other.depth else depth;
      Size(nodes + other.nodes, deeper, text + other.text, keysFit && other.keysFit)
    }
  }

  const NOTHING: Size := Size(0, 0, 0, true)

  function Measure(value: Json): Size
    decreases value, 1
  {
    match value
    case Text(text) => Size(1, 1, |text|, true)
    case Array(values) => Nested(MeasureAll(values))
    case Object(members) => Nested(MeasureMembers(members))
    case _ => Size(1, 1, 0, true)
  }

  function Nested(inner: Size): Size { inner.(nodes := inner.nodes + 1, depth := inner.depth + 1) }

  function MeasureAll(values: seq<Json>): Size
    decreases values, 0
  {
    if values == [] then NOTHING else Measure(values[0]).Plus(MeasureAll(values[1..]))
  }

  function MeasureMembers(members: seq<Member>): Size
    decreases members, 0
  {
    if members == [] then NOTHING
    else
      var first := Measure(members[0].value);
      first.(text := first.text + |members[0].key|, keysFit := first.keysFit && |members[0].key| <= MAX_KEY)
           .Plus(MeasureMembers(members[1..]))
  }

  /** What is left of the limits covers a tree of this size whose root sits at `depth`. */
  predicate Fits(size: Size, depth: nat, nodes: nat, text: nat) {
    depth + size.depth <= MAX_DEPTH + 1 && nodes + size.nodes <= MAX_NODES && text + size.text <= MAX_TEXT
      && size.keysFit
  }

  lemma MeasurePositive(value: Json)
    ensures Measure(value).depth >= 1 && Measure(value).nodes >= 1
  {
  }

  /** The early-exit traversal succeeds exactly when the whole tree is within every limit. */
  method ValidateJsonLimits(value: Json) returns (ok: bool)
    ensures ok <==>
      var size := Measure(value);
      size.nodes <= MAX_NODES && size.depth <= MAX_DEPTH && size.text <= MAX_TEXT && size.keysFit
  {
    var nodes, text;
    ok, nodes, text := Visit(value, 1, 0, 0);
  }

  method Visit(value: Json, depth: nat, nodesIn: nat, textIn: nat) returns (ok: bool, nodes: nat, text: nat)
    ensures ok <==> Fits(Measure(value), depth, nodesIn, textIn)
    ensures ok ==> nodes == nodesIn + Measure(value).nodes && text == textIn + Measure(value).text
    decreases value, 1
  {
    MeasurePositive(value);
    nodes, text := nodesIn, textIn;
    if nodes == USIZE_MAX { return false, nodes, text; }
    nodes := nodes + 1;
    if depth > MAX_DEPTH || nodes > MAX_NODES { return false, nodes, text; }
    match value {
      case Text(s) =>
        if text + |s| > USIZE_MAX { return false, nodes, text; }
        text := text + |s|;
      case Array(values) =>
        ok, nodes, text := VisitAll(values, depth + 1, nodes, text);
        if !ok { return; }
      case Object(members) =>
        ok, nodes, text := VisitMembers(members, depth + 1, nodes, text);
        if !ok { return; }
      case _ =>
    }
    ok := text <= MAX_TEXT;
  }

  /** The children loop; text is checked only when a visit returns. */
  method VisitAll(values: seq<Json>, depth: nat, nodesIn: nat, textIn: nat) returns (ok: bool, nodes: nat, text: nat)
    requires depth <= MAX_DEPTH + 1 && nodesIn <= MAX_NODES
    ensures !ok ==> !Fits(MeasureAll(values), depth, nodesIn, textIn)
    ensures ok ==> nodes == nodesIn + MeasureAll(values).nodes && text == textIn + MeasureAll(values).text
    ensures ok ==> depth + MeasureAll(values).depth <= MAX_DEPTH + 1 && nodes <= MAX_NODES && MeasureAll(values).keysFit
    decreases values, 0
  {
    nodes, text := nodesIn, textIn;
    for i := 0 to |values|
      invariant nodes + MeasureAll(values[i..]).nodes == nodesIn + MeasureAll(values).nodes
      invariant text + MeasureAll(values[i..]).text == textIn + MeasureAll(values).text
      invariant nodes <= MAX_NODES
      invariant MeasureAll(values[i..]).keysFit ==> MeasureAll(values).keysFit
      invariant MeasureAll(values).keysFit ==> MeasureAll(values[i..]).keysFit
      invariant MeasureAll(values[i..]).depth <= MeasureAll(values).depth
      invariant MeasureAll(values).depth > MeasureAll(values[i..]).depth ==>
                  depth + MeasureAll(values).depth <= MAX_DEPTH + 1
    {
      assert values[i..][1..] == values[i + 1..];
      ok, nodes, text := Visit(values[i], depth, nodes, text);
      if !ok { return; }
    }
    assert values[|values|..] == [];
    ok := true;
  }

  method VisitMembers(members: seq<Member>, depth: nat, nodesIn: nat, textIn: nat)
    returns (ok: bool, nodes: nat, text: nat)
    requires depth <= MAX_DEPTH + 1 && nodesIn <= MAX_NODES
    ensures !ok ==> !Fits(MeasureMembers(members), depth, nodesIn, textIn)
    ensures ok ==> nodes == nodesIn + MeasureMembers(members).nodes && text == textIn + MeasureMembers(members).text
    ensures ok ==>
              depth + MeasureMembers(members).depth <= MAX_DEPTH + 1 && nodes <= MAX_NODES
                && MeasureMembers(members).keysFit
    decreases members, 0
  {
    nodes, text := nodesIn, textIn;
    for i := 0 to |members|
      invariant nodes + MeasureMembers(members[i..]).nodes == nodesIn + MeasureMembers(members).nodes
      invariant text + MeasureMembers(members[i..]).text == textIn + MeasureMembers(members).text
      invariant nodes <= MAX_NODES
      invariant MeasureMembers(members[i..]).keysFit ==> MeasureMembers(members).keysFit
      invariant MeasureMembers(members).keysFit ==> MeasureMembers(members[i..]).keysFit
      invariant MeasureMembers(members[i..]).depth <= MeasureMembers(members).depth
      invariant MeasureMembers(members).depth > MeasureMembers(members[i..]).depth ==>
                  depth + MeasureMembers(members).depth <= MAX_DEPTH + 1
    {
      assert members[i..][1..] == members[i + 1..];
      if |members[i].key| > MAX_KEY { return false, nodes, text; }
      if text + |members[i].key| > USIZE_MAX { return false, nodes, text; }
      text := text + |members[i].key|;
      ok, nodes, text := Visit(members[i].value, depth, nodes, text);
      if !ok { return; }
    }
    assert members[|members|..] == [];
    ok := true;
  }
}
