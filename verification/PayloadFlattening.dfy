/** Flattening of a JSON payload with an explicit stack, and the worklist over a schema. */
module PayloadFlattening {
  import opened Prelude

  const MAX_DEPTH: int := 100

  // A scalar stands for its text; the fields of an object have distinct keys in document order.
  datatype Json = Scalar(text: string) | Object(fields: seq<Field>) | Array(items: seq<Json>)

  datatype Field = Field(key: string, value: Json)

  // A value together with the path that leads to it.
  datatype Node = Node(path: string, value: Json, depth: nat)

  // An insertion-ordered dictionary from paths to values.
  datatype Entry = Entry(path: string, value: Json)

  // ---------------------------------------------------------------------- paths

  function Digits(n: nat): string {
    if n < 10 then [('0' as int + n) as char] else Digits(n / 10) + [('0' as int + n % 10) as char]
  }

  // The number a text of digits stands for.
  function Value(s: string): int {
    if s == "" then 0 else 10 * Value(s[..|s| - 1]) + s[|s| - 1] as int - '0' as int
  }

  lemma {:induction false} DigitsAreDecimal(n: nat)
    ensures |Digits(n)| >= 1 && Value(Digits(n)) == n
  {
    if n < 10 {
      assert Value("") == 0 && Digits(n)[..0] == "";
    } else {
      DigitsAreDecimal(n / 10);
      assert Digits(n)[..|Digits(n)| - 1] == Digits(n / 10);
    }
  }

  function KeyPath(path: string, key: string): string {
    if path == "" then key else path + "." + key
  }

  function IndexPath(path: string, index: nat): string {
    if path == "" then "[" + Digits(index) + "]" else path + "[" + Digits(index) + "]"
  }

  // ---------------------------------------------------------------- tree measure

  function Size(v: Json): (n: nat)
    ensures n >= 1
    decreases v, 1
  {
    match v
    case Scalar(_) => 1
    case Object(fields) => 1 + FieldsSize(fields)
    case Array(items) => 1 + ItemsSize(items)
  }

  function FieldsSize(fields: seq<Field>): nat
    decreases fields, 0
  {
    if fields == [] then 0 else Size(fields[0].value) + FieldsSize(fields[1..])
  }

  function ItemsSize(items: seq<Json>): nat
    decreases items, 0
  {
    if items == [] then 0 else Size(items[0]) + ItemsSize(items[1..])
  }

  function TotalSize(nodes: seq<Node>): nat {
    if nodes == [] then 0 else Size(nodes[0].value) + TotalSize(nodes[1..])
  }

  // ------------------------------------------------------- recursive definition

  function FieldNodes(path: string, fields: seq<Field>, depth: nat): (r: seq<Node>)
    ensures TotalSize(r) == FieldsSize(fields) && forall i :: 0 <= i < |r| ==> r[i].depth == depth
  {
    if fields == [] then []
    else [Node(KeyPath(path, fields[0].key), fields[0].value, depth)] + FieldNodes(path, fields[1..], depth)
  }

  function ItemNodes(path: string, items: seq<Json>, index: nat, depth: nat): (r: seq<Node>)
    ensures TotalSize(r) == ItemsSize(items) && forall i :: 0 <= i < |r| ==> r[i].depth == depth
  {
    if items == [] then []
    else [Node(IndexPath(path, index), items[0], depth)] + ItemNodes(path, items[1..], index + 1, depth)
  }

  // The children of a container, in document order.
  function Children(n: Node): (r: seq<Node>)
    ensures TotalSize(r) < Size(n.value) && forall i :: 0 <= i < |r| ==> r[i].depth == n.depth + 1
  {
    match n.value
    case Scalar(_) => []
    case Object(fields) => FieldNodes(n.path, fields, n.depth + 1)
    case Array(items) => ItemNodes(n.path, items, 0, n.depth + 1)
  }

  // Scalars, and anything deeper than 100, are not opened.
  predicate IsLeaf(n: Node) {
    n.depth > MAX_DEPTH || n.value.Scalar?
  }

  // The leaves below a node in document order; a leaf with an empty path is dropped.
  function Leaves(n: Node): seq<Entry>
    decreases Size(n.value), 0
  {
    if IsLeaf(n) then (if n.path == "" then [] else [Entry(n.path, n.value)])
    else LeavesOf(Children(n))
  }

  function LeavesOf(nodes: seq<Node>): seq<Entry>
    decreases TotalSize(nodes), |nodes|
  {
    if nodes == [] then [] else Leaves(nodes[0]) + LeavesOf(nodes[1..])
  }

  // Assignment to a dictionary: an existing path keeps its place, a new one goes last.
  function Put(flat: seq<Entry>, e: Entry): seq<Entry> {
    if flat == [] then [e]
    else if flat[0].path == e.path then [e] + flat[1..]
    else [flat[0]] + Put(flat[1..], e)
  }

  function PutAll(flat: seq<Entry>, entries: seq<Entry>): seq<Entry>
    decreases |entries|
  {
    if entries == [] then flat else PutAll(Put(flat, entries[0]), entries[1..])
  }

  // The flattening of a payload: its leaves assigned in document order.
  function Flat(payload: Json): seq<Entry> {
    PutAll([], Leaves(Node("", payload, 0)))
  }

  // -------------------------------------------------------------------- laws

  lemma {:induction false} LeavesConcat(a: seq<Node>, b: seq<Node>)
    ensures LeavesOf(a + b) == LeavesOf(a) + LeavesOf(b)
  {
    if a == [] {
      assert a + b == b;
    } else {
      assert (a + b)[1..] == a[1..] + b;
      LeavesConcat(a[1..], b);
    }
  }

  lemma {:induction false} PutAllConcat(flat: seq<Entry>, a: seq<Entry>, b: seq<Entry>)
    ensures PutAll(flat, a + b) == PutAll(PutAll(flat, a), b)
    decreases |a|
  {
    if a == [] {
      assert a + b == b;
    } else {
      assert (a + b)[1..] == a[1..] + b;
      PutAllConcat(Put(flat, a[0]), a[1..], b);
    }
  }

  lemma {:induction false} TotalConcat(a: seq<Node>, b: seq<Node>)
    ensures TotalSize(a + b) == TotalSize(a) + TotalSize(b)
  {
    if a == [] {
      assert a + b == b;
    } else {
      assert (a + b)[1..] == a[1..] + b;
      TotalConcat(a[1..], b);
    }
  }

  function Reverse(nodes: seq<Node>): (r: seq<Node>)
    ensures |r| == |nodes|
  {
    if nodes == [] then [] else Reverse(nodes[1..]) + [nodes[0]]
  }

  lemma {:induction false} ReverseConcat(a: seq<Node>, b: seq<Node>)
    ensures Reverse(a + b) == Reverse(b) + Reverse(a)
  {
    if a == [] {
      assert a + b == b && Reverse(b) + [] == Reverse(b);
    } else {
      assert (a + b)[1..] == a[1..] + b;
      ReverseConcat(a[1..], b);
    }
  }

  lemma {:induction false} ReverseTwice(a: seq<Node>)
    ensures Reverse(Reverse(a)) == a
    ensures TotalSize(Reverse(a)) == TotalSize(a)
  {
    if a != [] {
      ReverseTwice(a[1..]);
      ReverseConcat(Reverse(a[1..]), [a[0]]);
      TotalConcat(Reverse(a[1..]), [a[0]]);
      assert [a[0]] + a[1..] == a;
    }
  }

  // Popping a node and pushing its children in reverse leaves the same entries to assign.
  lemma OpenNode(below: seq<Node>, n: Node)
    requires !IsLeaf(n)
    ensures LeavesOf(Reverse(below + Reverse(Children(n)))) == LeavesOf(Reverse(below + [n]))
    ensures TotalSize(below + Reverse(Children(n))) < TotalSize(below + [n])
  {
    ReverseConcat(below, Reverse(Children(n)));
    ReverseTwice(Children(n));
    ReverseConcat(below, [n]);
    LeavesConcat(Children(n), Reverse(below));
    assert Reverse([n]) == [n];
    assert ([n] + Reverse(below))[1..] == Reverse(below);
    TotalConcat(below, Reverse(Children(n)));
    TotalConcat(below, [n]);
  }

  // Popping a leaf assigns its entry.
  lemma CloseNode(below: seq<Node>, n: Node)
    requires IsLeaf(n)
    ensures LeavesOf(Reverse(below + [n])) == Leaves(n) + LeavesOf(Reverse(below))
    ensures TotalSize(below) < TotalSize(below + [n])
  {
    ReverseConcat(below, [n]);
    assert Reverse([n]) == [n];
    assert ([n] + Reverse(below))[1..] == Reverse(below);
    TotalConcat(below, [n]);
  }

  // Pushes nodes so that the first one is popped first.
  method PushReversed(below: seq<Node>, nodes: seq<Node>) returns (stack: seq<Node>)
    ensures stack == below + Reverse(nodes)
  {
    var i := |nodes|;
    stack := below;
    while i > 0
      invariant 0 <= i <= |nodes|
      invariant stack == below + Reverse(nodes[i..])
    {
      i := i - 1;
      assert nodes[i..] == [nodes[i]] + nodes[i + 1..] && nodes[i..][1..] == nodes[i + 1..];
      stack := stack + [nodes[i]];
    }
    assert nodes[0..] == nodes;
  }

  /** The explicit-stack flattener ends on every payload and equals the recursive definition. */
  method FlattenPayload(payload: Json) returns (flat: seq<Entry>)
    ensures flat == Flat(payload)
  {
    flat := [];
    var stack := [Node("", payload, 0)];
    assert stack[1..] == [] && Reverse(stack) == [] + stack == stack;
    assert LeavesOf(stack) == Leaves(stack[0]) + [] == Leaves(stack[0]);
    while stack != []
      invariant PutAll(flat, LeavesOf(Reverse(stack))) == Flat(payload)
      decreases TotalSize(stack)
    {
      var n := stack[|stack| - 1];
      var below := stack[..|stack| - 1];
      assert stack == below + [n];
      if n.depth > MAX_DEPTH || n.value.Scalar? {
        CloseNode(below, n);
        PutAllConcat(flat, Leaves(n), LeavesOf(Reverse(below)));
        if n.path != "" {
          PutOne(flat, Entry(n.path, n.value));
          flat := Put(flat, Entry(n.path, n.value));
        }
        stack := below;
      } else {
        OpenNode(below, n);
        stack := PushReversed(below, Children(n));
      }
    }
  }

  lemma PutOne(flat: seq<Entry>, e: Entry)
    ensures PutAll(flat, [e]) == Put(flat, e)
  {
    assert [e][1..] == [];
  }

  // The value a dictionary holds at a path.
  function Lookup(flat: seq<Entry>, path: string): Option<Json> {
    if flat == [] then None
    else if flat[0].path == path then Some(flat[0].value)
    else Lookup(flat[1..], path)
  }

  // The last leaf with a path.
  function LastWith(entries: seq<Entry>, path: string): Option<Json> {
    if entries == [] then None
    else
      var rest := LastWith(entries[1..], path);
      if rest.Some? then rest else if entries[0].path == path then Some(entries[0].value) else None
  }

  ghost predicate PathsDistinct(flat: seq<Entry>) {
    forall i, j :: 0 <= i < j < |flat| ==> flat[i].path != flat[j].path
  }

  lemma {:induction false} PutKeepsDistinct(flat: seq<Entry>, e: Entry)
    requires PathsDistinct(flat)
    ensures PathsDistinct(Put(flat, e))
    ensures forall x :: x in Put(flat, e) ==> x == e || (x in flat && x.path != e.path)
    ensures forall path :: Lookup(Put(flat, e), path) == if path == e.path then Some(e.value) else Lookup(flat, path)
  {
    if flat != [] && flat[0].path != e.path {
      PutKeepsDistinct(flat[1..], e);
      var rest := Put(flat[1..], e);
      forall i | 0 <= i < |rest| ensures rest[i].path != flat[0].path {
        assert rest[i] in rest;
      }
    }
  }

  // A path keeps its place: the first assignment to it fixes where it stands.
  lemma {:induction false} PutInPlace(flat: seq<Entry>, e: Entry)
    requires PathsDistinct(flat)
    ensures forall i :: 0 <= i < |flat| && flat[i].path == e.path ==> Put(flat, e) == flat[i := e]
    ensures (forall i :: 0 <= i < |flat| ==> flat[i].path != e.path) ==> Put(flat, e) == flat + [e]
  {
    if flat != [] && flat[0].path != e.path {
      PutInPlace(flat[1..], e);
      forall i | 0 <= i < |flat| && flat[i].path == e.path ensures Put(flat, e) == flat[i := e] {
        assert flat[1..][i - 1] == flat[i];
        assert flat[i := e] == [flat[0]] + flat[1..][i - 1 := e];
      }
    }
  }

  lemma {:induction false} PutAllLooksUpLast(flat: seq<Entry>, entries: seq<Entry>, path: string)
    requires PathsDistinct(flat)
    ensures PathsDistinct(PutAll(flat, entries))
    ensures var last := LastWith(entries, path);
      Lookup(PutAll(flat, entries), path) == if last.Some? then last else Lookup(flat, path)
    decreases |entries|
  {
    if entries != [] {
      PutKeepsDistinct(flat, entries[0]);
      PutAllLooksUpLast(Put(flat, entries[0]), entries[1..], path);
    }
  }

  /** Each path of the flattening occurs once and holds the last leaf that has it in document order. */
  lemma LaterValueWins(payload: Json, path: string)
    ensures PathsDistinct(Flat(payload))
    ensures Lookup(Flat(payload), path) == LastWith(Leaves(Node("", payload, 0)), path)
  {
    PutAllLooksUpLast([], Leaves(Node("", payload, 0)), path);
  }

  // How many containers are nested below a node.
  function Height(n: Node): nat
    decreases Size(n.value), 0
  {
    if n.value.Scalar? then 0 else 1 + MaxHeight(Children(n))
  }

  function MaxHeight(nodes: seq<Node>): nat
    decreases TotalSize(nodes), |nodes|
  {
    if nodes == [] then 0
    else if Height(nodes[0]) >= MaxHeight(nodes[1..]) then Height(nodes[0]) else MaxHeight(nodes[1..])
  }

  lemma {:induction false} ShallowLeaves(nodes: seq<Node>, e: Entry, depth: nat)
    requires e in LeavesOf(nodes) && (forall i :: 0 <= i < |nodes| ==> nodes[i].depth == depth)
    requires depth + MaxHeight(nodes) <= MAX_DEPTH
    ensures e.path != "" && e.value.Scalar?
    decreases TotalSize(nodes), |nodes|
  {
    if e !in Leaves(nodes[0]) {
      ShallowLeaves(nodes[1..], e, depth);
    } else if !IsLeaf(nodes[0]) {
      ShallowLeaves(Children(nodes[0]), e, depth + 1);
    }
  }

  /** Containers are opened down to depth 100 and stored whole below it; nothing is stored without a path. */
  lemma CutOffAtHundred(n: Node)
    ensures n.depth <= 100 && !n.value.Scalar? ==> Leaves(n) == LeavesOf(Children(n))
    ensures n.depth > 100 || n.value.Scalar? ==> Leaves(n) == if n.path == "" then [] else [Entry(n.path, n.value)]
  {
  }

  /** In a payload nested at most 100 deep only scalars are stored, and never at the empty path. */
  lemma ShallowPayloadFlattensToScalars(payload: Json, e: Entry)
    requires Height(Node("", payload, 0)) <= MAX_DEPTH && e in Leaves(Node("", payload, 0))
    ensures e.path != "" && e.value.Scalar?
  {
    var root := Node("", payload, 0);
    assert [root][1..] == [] && LeavesOf([root]) == Leaves(root) + [];
    ShallowLeaves([root], e, 0);
  }

  // ------------------------------------------------------------------ the schema

  // A schema node; a node without a `properties` object has none, and other JSON values are not nodes.
  datatype Schema = NotANode | Schema(description: string, format: string, properties: seq<Property>)

  datatype Property = Property(name: string, node: Schema)

  datatype SchemaNode = SchemaNode(path: string, schema: Schema)

  const CONTACT_WORDS: seq<string> := ["phone", "telephone", "mobile", "contact"]

  function Lower(s: string): string {
    if s == "" then ""
    else [if 'A' <= s[0] <= 'Z' then (s[0] as int + 32) as char else s[0]] + Lower(s[1..])
  }

  predicate Contains(text: string, word: string) {
    exists i :: 0 <= i <= |text| && word <= text[i..]
  }

  predicate IsContact(name: string, s: Schema)
    requires s.Schema?
  {
    var marker := Lower(name + " " + Lower(s.description) + " " + s.format);
    exists i :: 0 <= i < |CONTACT_WORDS| && Contains(marker, CONTACT_WORDS[i])
  }

  function SchemaSize(s: Schema): (n: nat)
    ensures n >= 1
    decreases s, 1
  {
    1 + if s.Schema? then PropertiesSize(s.properties) else 0
  }

  function PropertiesSize(ps: seq<Property>): nat
    decreases ps, 0
  {
    if ps == [] then 0
    else SchemaSize(ps[0].node) + PropertiesSize(ps[1..])
  }

  function NodesSize(nodes: seq<SchemaNode>): nat {
    if nodes == [] then 0 else NodesSize(nodes[..|nodes| - 1]) + SchemaSize(nodes[|nodes| - 1].schema)
  }

  // The contact paths below a node, by recursion over the schema.
  function ContactPaths(path: string, s: Schema): set<string>
    decreases s, 1
  {
    if s.NotANode? then {} else PropertyPaths(path, s.properties)
  }

  function PropertyPaths(path: string, ps: seq<Property>): set<string>
    decreases ps, 0
  {
    if ps == [] then {}
    else
      var rest := PropertyPaths(path, ps[1..]);
      if ps[0].node.NotANode? then rest
      else
        var child := KeyPath(path, ps[0].name);
        (if IsContact(ps[0].name, ps[0].node) then {child} else {})
        + ContactPaths(child, ps[0].node) + rest
  }

  // The contact paths still to be found below the nodes of a worklist.
  function Pending(nodes: seq<SchemaNode>): set<string> {
    if nodes == [] then {}
    else
      var last := nodes[|nodes| - 1];
      Pending(nodes[..|nodes| - 1]) + ContactPaths(last.path, last.schema)
  }

  /** The worklist ends on every schema and finds exactly the paths of the recursive definition. */
  method SchemaContactPaths(schema: Schema) returns (paths: set<string>)
    ensures paths == ContactPaths("", schema)
  {
    paths := {};
    if schema.NotANode? {
      return;
    }
    var stack := [SchemaNode("", schema)];
    assert stack[..0] == [];
    while stack != []
      invariant paths + Pending(stack) == ContactPaths("", schema)
      invariant forall i :: 0 <= i < |stack| ==> stack[i].schema.Schema?
      decreases NodesSize(stack)
    {
      var n := stack[|stack| - 1];
      var below := stack[..|stack| - 1];
      stack := below;
      var ps := n.schema.properties;
      ghost var before := paths;
      var i := 0;
      while i < |ps|
        invariant 0 <= i <= |ps|
        invariant forall k :: 0 <= k < |stack| ==> stack[k].schema.Schema?
        invariant paths + Pending(stack) + PropertyPaths(n.path, ps[i..]) ==
          before + Pending(below) + PropertyPaths(n.path, ps)
        invariant NodesSize(stack) + PropertiesSize(ps[i..]) <= NodesSize(below) + PropertiesSize(ps)
      {
        assert ps[i..][1..] == ps[i + 1..];
        if ps[i].node.Schema? {
          var child := KeyPath(n.path, ps[i].name);
          if IsContact(ps[i].name, ps[i].node) {
            paths := paths + {child};
          }
          assert (stack + [SchemaNode(child, ps[i].node)])[..|stack|] == stack;
          stack := stack + [SchemaNode(child, ps[i].node)];
        }
        i := i + 1;
      }
    }
  }
}
