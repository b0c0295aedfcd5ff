/** What reordering the fields of a payload does to its flattening. */
module PayloadOrder {
  import opened Prelude
  import opened PayloadFlattening

  // ------------------------------------------------------------------ reordering

  ghost predicate HasKey(fields: seq<Field>, key: string) {
    exists i :: 0 <= i < |fields| && fields[i].key == key
  }

  ghost predicate DistinctKeys(fields: seq<Field>) {
    forall i, j :: 0 <= i < j < |fields| ==> fields[i].key != fields[j].key
  }

  // Every object below has distinct keys, as a decoded dictionary has.
  ghost predicate WellKeyed(v: Json) {
    match v
    case Scalar(_) => true
    case Array(items) => forall i :: 0 <= i < |items| ==> WellKeyed(items[i])
    case Object(fields) => DistinctKeys(fields) && forall i :: 0 <= i < |fields| ==> WellKeyed(fields[i].value)
  }

  ghost predicate SameKeys(fields: seq<Field>, fields': seq<Field>) {
    && DistinctKeys(fields) && DistinctKeys(fields')
    && (forall i :: 0 <= i < |fields| ==> HasKey(fields', fields[i].key))
    && (forall j :: 0 <= j < |fields'| ==> HasKey(fields, fields'[j].key))
  }

  // The same payload up to the order of the fields of its objects, at every level.
  ghost predicate Reordered(v: Json, w: Json)
    decreases v
  {
    match v
    case Scalar(_) => w == v
    case Array(items) =>
      w.Array? && |w.items| == |items| && forall i :: 0 <= i < |items| ==> Reordered(items[i], w.items[i])
    case Object(fields) =>
      w.Object? && SameKeys(fields, w.fields) && FieldsReordered(fields, w.fields)
  }

  ghost predicate FieldsReordered(fields: seq<Field>, fields': seq<Field>)
    decreases fields
  {
    forall i, j :: 0 <= i < |fields| && 0 <= j < |fields'| && fields[i].key == fields'[j].key ==>
      Reordered(fields[i].value, fields'[j].value)
  }

  lemma {:induction false} ReorderedReflexive(v: Json)
    requires WellKeyed(v)
    ensures Reordered(v, v)
  {
    match v
    case Scalar(_) =>
    case Array(items) =>
      forall i | 0 <= i < |items| ensures Reordered(items[i], items[i]) {
        ReorderedReflexive(items[i]);
      }
    case Object(fields) =>
      forall i | 0 <= i < |fields| ensures Reordered(fields[i].value, fields[i].value) {
        ReorderedReflexive(fields[i].value);
      }
  }

  lemma {:induction false} ReorderedSymmetric(v: Json, w: Json)
    requires Reordered(v, w)
    ensures Reordered(w, v)
  {
    match v
    case Scalar(_) =>
    case Array(items) =>
      forall i | 0 <= i < |items| ensures Reordered(w.items[i], items[i]) {
        ReorderedSymmetric(items[i], w.items[i]);
      }
    case Object(fields) =>
      forall j, i | 0 <= j < |w.fields| && 0 <= i < |fields| && w.fields[j].key == fields[i].key
        ensures Reordered(w.fields[j].value, fields[i].value)
      {
        ReorderedSymmetric(fields[i].value, w.fields[j].value);
      }
  }

  // ------------------------------------------------------------------ leaves by child

  lemma {:induction false} LeafOfSome(nodes: seq<Node>, e: Entry)
    ensures e in LeavesOf(nodes) <==> exists i :: 0 <= i < |nodes| && e in Leaves(nodes[i])
  {
    if nodes != [] {
      LeafOfSome(nodes[1..], e);
      assert forall i :: 1 <= i < |nodes| ==> nodes[i] == nodes[1..][i - 1];
      if e in LeavesOf(nodes[1..]) {
        var i :| 0 <= i < |nodes[1..]| && e in Leaves(nodes[1..][i]);
        assert e in Leaves(nodes[i + 1]);
      }
    }
  }

  lemma {:induction false} FieldNodeAt(path: string, fields: seq<Field>, depth: nat)
    ensures var nodes := FieldNodes(path, fields, depth);
      |nodes| == |fields|
      && forall i :: 0 <= i < |fields| ==> nodes[i] == Node(KeyPath(path, fields[i].key), fields[i].value, depth)
  {
    if fields != [] {
      FieldNodeAt(path, fields[1..], depth);
    }
  }

  lemma {:induction false} ItemNodeAt(path: string, items: seq<Json>, index: nat, depth: nat)
    ensures var nodes := ItemNodes(path, items, index, depth);
      |nodes| == |items|
      && forall i :: 0 <= i < |items| ==> nodes[i] == Node(IndexPath(path, index + i), items[i], depth)
  {
    if items != [] {
      ItemNodeAt(path, items[1..], index + 1, depth);
      assert forall i :: 1 <= i < |items| ==> items[i] == items[1..][i - 1];
    }
  }

  function FieldNode(n: Node, i: nat): Node
    requires n.value.Object? && i < |n.value.fields|
  {
    Node(KeyPath(n.path, n.value.fields[i].key), n.value.fields[i].value, n.depth + 1)
  }

  function ItemNode(n: Node, i: nat): Node
    requires n.value.Array? && i < |n.value.items|
  {
    Node(IndexPath(n.path, i), n.value.items[i], n.depth + 1)
  }

  // Entry e is a leaf below the node.
  ghost predicate Below(n: Node, e: Entry)
    decreases n.value
  {
    if IsLeaf(n) then n.path != "" && e == Entry(n.path, n.value)
    else if n.value.Object? then exists i :: 0 <= i < |n.value.fields| && Below(FieldNode(n, i), e)
    else exists i :: 0 <= i < |n.value.items| && Below(ItemNode(n, i), e)
  }

  lemma ObjectChildren(n: Node)
    requires n.value.Object?
    ensures |Children(n)| == |n.value.fields|
    ensures forall i :: 0 <= i < |n.value.fields| ==> Children(n)[i] == FieldNode(n, i)
  {
    FieldNodeAt(n.path, n.value.fields, n.depth + 1);
  }

  lemma ArrayChildren(n: Node)
    requires n.value.Array?
    ensures |Children(n)| == |n.value.items|
    ensures forall i :: 0 <= i < |n.value.items| ==> Children(n)[i] == ItemNode(n, i)
  {
    ItemNodeAt(n.path, n.value.items, 0, n.depth + 1);
  }

  lemma {:induction false} BelowIsLeaf(n: Node, e: Entry)
    ensures Below(n, e) <==> e in Leaves(n)
    decreases n.value
  {
    if !IsLeaf(n) {
      var nodes := Children(n);
      LeafOfSome(nodes, e);
      assert Leaves(n) == LeavesOf(nodes);
      if n.value.Object? {
        ObjectChildren(n);
        forall i | 0 <= i < |nodes| ensures Below(FieldNode(n, i), e) <==> e in Leaves(nodes[i]) {
          BelowIsLeaf(FieldNode(n, i), e);
        }
      } else {
        ArrayChildren(n);
        forall i | 0 <= i < |nodes| ensures Below(ItemNode(n, i), e) <==> e in Leaves(nodes[i]) {
          BelowIsLeaf(ItemNode(n, i), e);
        }
      }
    }
  }

  lemma SameKind(v: Json, w: Json)
    requires Reordered(v, w)
    ensures (v.Scalar? <==> w.Scalar?) && (v.Object? <==> w.Object?) && (v.Array? <==> w.Array?)
    ensures v.Array? ==> |w.items| == |v.items| && forall i :: 0 <= i < |v.items| ==> Reordered(v.items[i], w.items[i])
  {
  }

  // The field that has the key of field j.
  lemma KeyOrigin(fields: seq<Field>, fields': seq<Field>, j: nat) returns (i: nat)
    requires SameKeys(fields, fields') && j < |fields'|
    ensures i < |fields| && fields[i].key == fields'[j].key
  {
    assert HasKey(fields, fields'[j].key);
    i :| 0 <= i < |fields| && fields[i].key == fields'[j].key;
  }

  lemma FieldOrigin(v: Json, w: Json, j: nat) returns (i: nat)
    requires v.Object? && Reordered(v, w) && j < |w.fields|
    ensures i < |v.fields| && v.fields[i].key == w.fields[j].key && Reordered(v.fields[i].value, w.fields[j].value)
  {
    i := KeyOrigin(v.fields, w.fields, j);
  }

  lemma FieldBelow(n: Node, e: Entry) returns (i: nat)
    requires n.value.Object? && !IsLeaf(n) && Below(n, e)
    ensures i < |n.value.fields| && Below(FieldNode(n, i), e)
  {
    i :| 0 <= i < |n.value.fields| && Below(FieldNode(n, i), e);
  }

  // Every leaf of a reordering comes from a leaf at the same path, up to reordering.
  lemma {:induction false} LeafOrigin(v: Json, w: Json, path: string, depth: nat, e: Entry) returns (o: Entry)
    requires Reordered(v, w) && Below(Node(path, w, depth), e)
    ensures Below(Node(path, v, depth), o) && o.path == e.path && Reordered(o.value, e.value)
    decreases v
  {
    var n, m := Node(path, v, depth), Node(path, w, depth);
    SameKind(v, w);
    if IsLeaf(n) {
      o := Entry(path, v);
    } else if v.Object? {
      var j := FieldBelow(m, e);
      var i := FieldOrigin(v, w, j);
      o := LeafOrigin(v.fields[i].value, w.fields[j].value, KeyPath(path, w.fields[j].key), depth + 1, e);
      assert Below(FieldNode(n, i), o);
    } else {
      var i :| 0 <= i < |w.items| && Below(ItemNode(m, i), e);
      o := LeafOrigin(v.items[i], w.items[i], IndexPath(path, i), depth + 1, e);
      assert Below(ItemNode(n, i), o);
    }
  }

  // ------------------------------------------------------------------ disjoint paths

  lemma {:induction false} DigitsHaveNoBracket(n: nat)
    ensures |Digits(n)| >= 1 && forall k :: 0 <= k < |Digits(n)| ==> Digits(n)[k] != ']'
  {
    if n >= 10 {
      DigitsHaveNoBracket(n / 10);
    }
  }

  // What follows the bracket that opens an index.
  lemma AfterBracket(path: string, index: nat, s: string)
    requires IndexPath(path, index) <= s
    ensures |path| + 2 + |Digits(index)| <= |s|
    ensures s[|path| + 1..|path| + 1 + |Digits(index)|] == Digits(index)
    ensures s[|path| + 1 + |Digits(index)|] == ']'
  {
    var whole := IndexPath(path, index);
    assert whole == path + "[" + Digits(index) + "]";
    assert forall k :: 0 <= k < |whole| ==> whole[k] == s[k];
    assert forall k :: 0 <= k < |Digits(index)| ==> whole[|path| + 1 + k] == Digits(index)[k];
  }

  // Two items of an array never share a path, nor do the leaves below them.
  lemma IndexPathsDiffer(path: string, i: nat, j: nat, s: string)
    requires IndexPath(path, i) <= s && IndexPath(path, j) <= s
    ensures i == j
  {
    AfterBracket(path, i, s);
    AfterBracket(path, j, s);
    DigitsHaveNoBracket(i);
    DigitsHaveNoBracket(j);
    var rest := s[|path| + 1..];
    var a, b := |Digits(i)|, |Digits(j)|;
    assert rest[..a] == Digits(i) && rest[..b] == Digits(j) && rest[a] == ']' && rest[b] == ']';
    assert forall k :: 0 <= k < a ==> rest[k] == Digits(i)[k];
    assert forall k :: 0 <= k < b ==> rest[k] == Digits(j)[k];
    assert a == b;
    DigitsAreDecimal(i);
    DigitsAreDecimal(j);
  }

  lemma {:induction false} LeafExtendsPath(n: Node, e: Entry)
    requires Below(n, e) && n.path != ""
    ensures n.path <= e.path
    decreases n.value
  {
    if !IsLeaf(n) {
      if n.value.Object? {
        var i :| 0 <= i < |n.value.fields| && Below(FieldNode(n, i), e);
        LeafExtendsPath(FieldNode(n, i), e);
        assert n.path <= FieldNode(n, i).path;
      } else {
        var i :| 0 <= i < |n.value.items| && Below(ItemNode(n, i), e);
        LeafExtendsPath(ItemNode(n, i), e);
        assert n.path <= ItemNode(n, i).path;
      }
    }
  }

  // ------------------------------------------------------------------ the last word

  lemma {:induction false} LastConcat(a: seq<Entry>, b: seq<Entry>, path: string)
    ensures LastWith(a + b, path) == if LastWith(b, path).Some? then LastWith(b, path) else LastWith(a, path)
  {
    if a == [] {
      assert a + b == b;
    } else {
      assert (a + b)[1..] == a[1..] + b;
      LastConcat(a[1..], b, path);
    }
  }

  lemma {:induction false} LastIsMember(entries: seq<Entry>, path: string)
    ensures LastWith(entries, path).Some? <==> exists e :: e in entries && e.path == path
    ensures LastWith(entries, path).Some? ==> Entry(path, LastWith(entries, path).value) in entries
  {
    if entries != [] {
      LastIsMember(entries[1..], path);
      if e :| e in entries && e.path == path {
        assert e == entries[0] || e in entries[1..];
      }
    }
  }

  // Moves field i to the end, with a new value.
  function MovedLast(fields: seq<Field>, i: nat, value: Json): seq<Field>
    requires i < |fields|
  {
    fields[..i] + fields[i + 1..] + [Field(fields[i].key, value)]
  }

  // Where the field now at place k was before the move.
  function MovedFrom(n: nat, i: nat, k: nat): nat
    requires i < n && k < n
  {
    if k == n - 1 then i else if k < i then k else k + 1
  }

  lemma MovedAt(fields: seq<Field>, i: nat, value: Json, k: nat)
    requires i < |fields| && k < |fields|
    ensures var moved, from := MovedLast(fields, i, value), MovedFrom(|fields|, i, k);
      |moved| == |fields| && from < |fields|
      && moved[k] == if k == |fields| - 1 then Field(fields[i].key, value) else fields[from]
  {
  }

  lemma MovedHasSameKeys(fields: seq<Field>, i: nat, value: Json)
    requires i < |fields| && DistinctKeys(fields)
    ensures SameKeys(fields, MovedLast(fields, i, value))
  {
    var moved := MovedLast(fields, i, value);
    forall k | 0 <= k < |fields| ensures HasKey(moved, fields[k].key) {
      var to := if k < i then k else if k == i then |fields| - 1 else k - 1;
      MovedAt(fields, i, value, to);
      assert moved[to].key == fields[k].key;
    }
    forall k | 0 <= k < |moved| ensures HasKey(fields, moved[k].key) {
      MovedAt(fields, i, value, k);
      assert fields[MovedFrom(|fields|, i, k)].key == moved[k].key;
    }
    forall k, j | 0 <= k < j < |moved| ensures moved[k].key != moved[j].key {
      MovedAt(fields, i, value, k);
      MovedAt(fields, i, value, j);
    }
  }

  lemma MovedIsReordered(fields: seq<Field>, i: nat, value: Json)
    requires i < |fields| && WellKeyed(Object(fields)) && Reordered(fields[i].value, value)
    ensures Reordered(Object(fields), Object(MovedLast(fields, i, value)))
  {
    var moved := MovedLast(fields, i, value);
    MovedHasSameKeys(fields, i, value);
    forall k, j | 0 <= k < |fields| && 0 <= j < |moved| && fields[k].key == moved[j].key
      ensures Reordered(fields[k].value, moved[j].value)
    {
      MovedAt(fields, i, value, j);
      assert k == MovedFrom(|fields|, i, j);
      ReorderedReflexive(fields[k].value);
    }
  }

  lemma {:induction false} FieldNodesConcat(path: string, a: seq<Field>, b: seq<Field>, depth: nat)
    ensures FieldNodes(path, a + b, depth) == FieldNodes(path, a, depth) + FieldNodes(path, b, depth)
  {
    if a == [] {
      assert a + b == b;
    } else {
      assert (a + b)[1..] == a[1..] + b;
      FieldNodesConcat(path, a[1..], b, depth);
    }
  }

  lemma LastFieldSpeaksLast(path: string, fields: seq<Field>, depth: nat, f: Field, p: string)
    requires LastWith(Leaves(Node(KeyPath(path, f.key), f.value, depth)), p).Some?
    ensures LastWith(LeavesOf(FieldNodes(path, fields + [f], depth)), p)
         == LastWith(Leaves(Node(KeyPath(path, f.key), f.value, depth)), p)
  {
    var last := Node(KeyPath(path, f.key), f.value, depth);
    FieldNodesConcat(path, fields, [f], depth);
    assert [f][1..] == [] && FieldNodes(path, [f], depth) == [last];
    LeavesConcat(FieldNodes(path, fields, depth), [last]);
    assert [last][1..] == [] && LeavesOf([last]) == Leaves(last);
    LastConcat(LeavesOf(FieldNodes(path, fields, depth)), Leaves(last), p);
  }

  // When only node i has leaves at path p, the last word belongs to it.
  lemma {:induction false} OnlyNodeSpeaks(nodes: seq<Node>, i: nat, p: string)
    requires i < |nodes|
    requires forall k :: 0 <= k < |nodes| && k != i ==> LastWith(Leaves(nodes[k]), p).None?
    ensures LastWith(LeavesOf(nodes), p) == LastWith(Leaves(nodes[i]), p)
  {
    LastConcat(Leaves(nodes[0]), LeavesOf(nodes[1..]), p);
    if i == 0 {
      NobodySpeaks(nodes[1..], p);
    } else {
      OnlyNodeSpeaks(nodes[1..], i - 1, p);
    }
  }

  lemma {:induction false} NobodySpeaks(nodes: seq<Node>, p: string)
    requires forall k :: 0 <= k < |nodes| ==> LastWith(Leaves(nodes[k]), p).None?
    ensures LastWith(LeavesOf(nodes), p).None?
  {
    if nodes != [] {
      LastConcat(Leaves(nodes[0]), LeavesOf(nodes[1..]), p);
      NobodySpeaks(nodes[1..], p);
    }
  }

  /** Any leaf can be given the last word on its path, with any reordering of its value: some reordering
      of the payload assigns it after every other leaf with that path. */
  lemma {:induction false} MakeLast(v: Json, path: string, depth: nat, e: Entry, value: Json) returns (w: Json)
    requires WellKeyed(v) && Below(Node(path, v, depth), e) && Reordered(e.value, value)
    ensures Reordered(v, w) && LastWith(Leaves(Node(path, w, depth)), e.path) == Some(value)
    decreases v, 1
  {
    SameKind(e.value, value);
    if IsLeaf(Node(path, v, depth)) {
      w := value;
      assert Leaves(Node(path, w, depth)) == [Entry(path, w)] && [Entry(path, w)][1..] == [];
    } else if v.Object? {
      w := MakeLastInObject(v, path, depth, e, value);
    } else {
      w := MakeLastInArray(v, path, depth, e, value);
    }
  }

  lemma {:induction false} MakeLastInObject(v: Json, path: string, depth: nat, e: Entry, value: Json) returns (w: Json)
    requires v.Object? && depth <= MAX_DEPTH
    requires WellKeyed(v) && Below(Node(path, v, depth), e) && Reordered(e.value, value)
    ensures Reordered(v, w) && LastWith(Leaves(Node(path, w, depth)), e.path) == Some(value)
    decreases v, 0
  {
    var i :| 0 <= i < |v.fields| && Below(FieldNode(Node(path, v, depth), i), e);
    var f := v.fields[i];
    var x := MakeLast(f.value, KeyPath(path, f.key), depth + 1, e, value);
    w := Object(MovedLast(v.fields, i, x));
    MovedIsReordered(v.fields, i, x);
    MovedSpeaksLast(path, depth, v.fields, i, x, e.path);
  }

  lemma MovedSpeaksLast(path: string, depth: nat, fields: seq<Field>, i: nat, x: Json, p: string)
    requires depth <= MAX_DEPTH && i < |fields|
    requires LastWith(Leaves(Node(KeyPath(path, fields[i].key), x, depth + 1)), p).Some?
    ensures LastWith(Leaves(Node(path, Object(MovedLast(fields, i, x)), depth)), p)
         == LastWith(Leaves(Node(KeyPath(path, fields[i].key), x, depth + 1)), p)
  {
    LastFieldSpeaksLast(path, fields[..i] + fields[i + 1..], depth + 1, Field(fields[i].key, x), p);
  }

  lemma {:induction false} MakeLastInArray(v: Json, path: string, depth: nat, e: Entry, value: Json) returns (w: Json)
    requires v.Array? && depth <= MAX_DEPTH
    requires WellKeyed(v) && Below(Node(path, v, depth), e) && Reordered(e.value, value)
    ensures Reordered(v, w) && LastWith(Leaves(Node(path, w, depth)), e.path) == Some(value)
    decreases v, 0
  {
    var i :| 0 <= i < |v.items| && Below(ItemNode(Node(path, v, depth), i), e);
    var x := MakeLast(v.items[i], IndexPath(path, i), depth + 1, e, value);
    w := Array(v.items[i := x]);
    forall k | 0 <= k < |v.items| ensures Reordered(v.items[k], w.items[k]) {
      ReorderedReflexive(v.items[k]);
    }
    ItemSpeaksAlone(Node(path, w, depth), i, e.path);
  }

  // The last word of a node on a path is a leaf below it.
  lemma SpeakerIsBelow(n: Node, p: string)
    requires LastWith(Leaves(n), p).Some?
    ensures Below(n, Entry(p, LastWith(Leaves(n), p).value))
  {
    LastIsMember(Leaves(n), p);
    BelowIsLeaf(n, Entry(p, LastWith(Leaves(n), p).value));
  }

  lemma ItemSpeaksAlone(n: Node, i: nat, p: string)
    requires n.value.Array? && !IsLeaf(n) && i < |n.value.items|
    requires LastWith(Leaves(ItemNode(n, i)), p).Some?
    ensures LastWith(Leaves(n), p) == LastWith(Leaves(ItemNode(n, i)), p)
  {
    var nodes := Children(n);
    ItemNodeAt(n.path, n.value.items, 0, n.depth + 1);
    forall k | 0 <= k < |nodes| && k != i ensures LastWith(Leaves(nodes[k]), p).None? {
      if LastWith(Leaves(ItemNode(n, k)), p).Some? {
        ItemsClash(n, i, k, p);
      }
    }
    OnlyNodeSpeaks(nodes, i, p);
  }

  lemma ItemsClash(n: Node, i: nat, k: nat, p: string)
    requires n.value.Array? && i < |n.value.items| && k < |n.value.items|
    requires LastWith(Leaves(ItemNode(n, i)), p).Some? && LastWith(Leaves(ItemNode(n, k)), p).Some?
    ensures i == k
  {
    SpeakerIsBelow(ItemNode(n, i), p);
    SpeakerIsBelow(ItemNode(n, k), p);
    LeafExtendsPath(ItemNode(n, i), Entry(p, LastWith(Leaves(ItemNode(n, i)), p).value));
    LeafExtendsPath(ItemNode(n, k), Entry(p, LastWith(Leaves(ItemNode(n, k)), p).value));
    IndexPathsDiffer(n.path, i, k, p);
  }

  // ------------------------------------------------------------------ rigid values

  // No object with two fields anywhere below: the value has no other order.
  ghost predicate Rigid(v: Json) {
    match v
    case Scalar(_) => true
    case Array(items) => forall i :: 0 <= i < |items| ==> Rigid(items[i])
    case Object(fields) => |fields| <= 1 && forall i :: 0 <= i < |fields| ==> Rigid(fields[i].value)
  }

  lemma {:induction false} RigidIsAlone(v: Json, w: Json)
    requires Rigid(v) && Reordered(v, w)
    ensures w == v
  {
    match v
    case Scalar(_) =>
    case Array(items) =>
      forall i | 0 <= i < |items| ensures w.items[i] == items[i] {
        RigidIsAlone(items[i], w.items[i]);
      }
      assert w.items == items;
    case Object(fields) =>
      FewKeys(fields, w.fields);
      if fields != [] {
        RigidIsAlone(fields[0].value, w.fields[0].value);
      }
      assert w.fields == fields;
  }

  lemma FewKeys(fields: seq<Field>, fields': seq<Field>)
    requires SameKeys(fields, fields') && |fields| <= 1
    ensures |fields'| == |fields| && (|fields| == 1 ==> fields'[0].key == fields[0].key)
  {
    if fields' != [] {
      var _ := KeyOrigin(fields, fields', 0);
    }
    if fields != [] {
      assert HasKey(fields', fields[0].key);
      if |fields'| > 1 {
        var j := OtherKey(fields', fields[0].key);
        var _ := KeyOrigin(fields, fields', j);
      }
    }
  }

  lemma OtherKey(fields: seq<Field>, key: string) returns (j: nat)
    requires DistinctKeys(fields) && |fields| > 1
    ensures j < |fields| && fields[j].key != key
  {
    j := if fields[0].key == key then 1 else 0;
  }

  lemma {:induction false} OtherOrder(v: Json) returns (w: Json)
    requires WellKeyed(v) && !Rigid(v)
    ensures Reordered(v, w) && w != v
  {
    match v
    case Array(items) =>
      var i :| 0 <= i < |items| && !Rigid(items[i]);
      var x := OtherOrder(items[i]);
      w := Array(items[i := x]);
      forall k | 0 <= k < |items| ensures Reordered(items[k], w.items[k]) {
        ReorderedReflexive(items[k]);
      }
      assert w.items[i] != items[i];
    case Object(fields) =>
      if |fields| > 1 {
        ReorderedReflexive(fields[0].value);
        w := Object(MovedLast(fields, 0, fields[0].value));
        MovedIsReordered(fields, 0, fields[0].value);
        assert w.fields[0] == fields[1];
      } else {
        var x := OtherOrder(fields[0].value);
        w := Object(MovedLast(fields, 0, x));
        MovedIsReordered(fields, 0, x);
        assert w.fields[0].value == x;
      }
  }

  // ------------------------------------------------------------------ stable payloads

  // Leaves that share a path agree on its value, and no leaf (a container below the depth limit) can
  // itself be reordered.
  ghost predicate Stable(v: Json) {
    var root := Node("", v, 0);
    && (forall e, f :: Below(root, e) && Below(root, f) && e.path == f.path ==> e.value == f.value)
    && (forall e :: Below(root, e) ==> Rigid(e.value))
  }

  ghost predicate SameFlattening(v: Json, w: Json) {
    forall path :: Lookup(Flat(v), path) == Lookup(Flat(w), path)
  }

  // What a flattening holds at a path is a leaf; and a path with a leaf is in it.
  lemma HeldIsBelow(v: Json, path: string)
    ensures var held := Lookup(Flat(v), path);
      && (held.Some? ==> Below(Node("", v, 0), Entry(path, held.value)))
      && (forall e :: Below(Node("", v, 0), e) && e.path == path ==> held.Some?)
  {
    var root := Node("", v, 0);
    LaterValueWins(v, path);
    LastIsMember(Leaves(root), path);
    if Lookup(Flat(v), path).Some? {
      SpeakerIsBelow(root, path);
    }
    forall e | Below(root, e) && e.path == path ensures Lookup(Flat(v), path).Some? {
      BelowIsLeaf(root, e);
    }
  }

  lemma StableFlattening(v: Json, w: Json)
    requires Stable(v) && Reordered(v, w)
    ensures SameFlattening(v, w)
  {
    forall path ensures Lookup(Flat(v), path) == Lookup(Flat(w), path) {
      HeldIsBelow(v, path);
      HeldIsBelow(w, path);
      var a, b := Lookup(Flat(v), path), Lookup(Flat(w), path);
      if b.Some? {
        var o := LeafOrigin(v, w, "", 0, Entry(path, b.value));
        RigidIsAlone(o.value, b.value);
      } else if a.Some? {
        ReorderedSymmetric(v, w);
        var _ := LeafOrigin(w, v, "", 0, Entry(path, a.value));
      }
    }
  }

  // An unstable payload has a path and two orders that give it different values.
  lemma UnstableFlattening(v: Json) returns (path: string, w: Json, x: Json, w': Json, x': Json)
    requires WellKeyed(v) && !Stable(v)
    ensures Reordered(v, w) && Reordered(v, w') && x != x'
    ensures Lookup(Flat(w), path) == Some(x) && Lookup(Flat(w'), path) == Some(x')
  {
    var root := Node("", v, 0);
    var e, f: Entry;
    if g :| Below(root, g) && !Rigid(g.value) {
      LeafIsWellKeyed(root, g);
      e, f, x := g, g, g.value;
      x' := OtherOrder(g.value);
    } else {
      e, f :| Below(root, e) && Below(root, f) && e.path == f.path && e.value != f.value;
      LeafIsWellKeyed(root, f);
      ReorderedReflexive(f.value);
      x, x' := e.value, f.value;
    }
    LeafIsWellKeyed(root, e);
    ReorderedReflexive(e.value);
    path := e.path;
    w := MakeLast(v, "", 0, e, x);
    w' := MakeLast(v, "", 0, f, x');
    LaterValueWins(w, path);
    LaterValueWins(w', path);
  }

  lemma {:induction false} LeafIsWellKeyed(n: Node, e: Entry)
    requires WellKeyed(n.value) && Below(n, e)
    ensures WellKeyed(e.value)
    decreases n.value
  {
    if !IsLeaf(n) {
      if n.value.Object? {
        var i :| 0 <= i < |n.value.fields| && Below(FieldNode(n, i), e);
        LeafIsWellKeyed(FieldNode(n, i), e);
      } else {
        var i :| 0 <= i < |n.value.items| && Below(ItemNode(n, i), e);
        LeafIsWellKeyed(ItemNode(n, i), e);
      }
    }
  }

  /** The flattening of a payload is the same for every order of its fields if and only if leaves that
      share a path agree on its value and no leaf can itself be reordered. */
  lemma FlatteningIsStableIff(v: Json)
    requires WellKeyed(v)
    ensures (forall w :: Reordered(v, w) ==> SameFlattening(v, w)) <==> Stable(v)
  {
    if Stable(v) {
      forall w | Reordered(v, w) ensures SameFlattening(v, w) {
        StableFlattening(v, w);
      }
    } else {
      var path, w, x, w', x' := UnstableFlattening(v);
      assert !SameFlattening(v, w) || !SameFlattening(v, w');
    }
  }
}
