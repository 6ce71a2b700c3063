/** The decision tree that indexes one file's cached results by the macros it used. */
module CacheTrees {
  import opened Macros
  import opened ConsistentKeys
  import opened Replay

  datatype Option<T> = None | Some(value: T)

  /** A node asks for `macroName` and has one child for each value seen so far. */
  class CacheTree {
    var macroName: Option<MacroName>
    var entry: Option<Entry>
    var children: map<MacroValue, CacheTree>
    var parent: CacheTree?
    var macroValue: MacroValue

    constructor ()
      ensures Fields() == EMPTY_NODE
    {
      macroName, entry, children, parent, macroValue := None, None, map[], null, Undefined;
    }

    ghost function Fields(): Node
      reads this
    {
      Node(macroName, entry, children, parent, macroValue)
    }
  }

  /** The fields of a node at one moment. */
  datatype Node = Node(
    macroName: Option<MacroName>, entry: Option<Entry>, children: map<MacroValue, CacheTree>, parent: CacheTree?,
    macroValue: MacroValue)

  const EMPTY_NODE := Node(None, None, map[], null, Undefined)

  ghost predicate FitsView(view: map<seq<Macro>, Entry>, used: seq<Macro>) {
    forall p :: p in view ==> Consistent(p, used)
  }

  /** All nodes of a tree at one moment. `path` gives every node the pairs on the way to
      it, `nodeAt` is its inverse. */
  datatype Graph = Graph(
    root: CacheTree, node: map<CacheTree, Node>, path: map<CacheTree, seq<Macro>>, nodeAt: map<seq<Macro>, CacheTree>)
  {
    ghost predicate Known(n: CacheTree) {
      n in node && n in path && path[n] in nodeAt && nodeAt[path[n]] == n
    }

    /** The child for `v` links back, and its path extends the node's by the pair seen. */
    ghost predicate ChildLink(n: CacheTree, v: MacroValue) {
      && n in node && v in node[n].children && node[n].macroName.Some?
      && var c := node[n].children[v];
         Known(n) && Known(c) && node[c].parent == n && node[c].macroValue == v
         && path[c] == path[n] + [(node[n].macroName.value, v)]
    }

    /** Every child is linked, and entries sit on leaves only. */
    ghost predicate Down(n: CacheTree) {
      && n in node
      && (forall v :: v in node[n].children ==> ChildLink(n, v))
      && (node[n].entry.Some? ==> node[n].children == map[])
    }

    /** The parent has the node as its child. */
    ghost predicate Up(n: CacheTree) {
      && n in node
      && if n == root then
           node[n].parent == null && n in path && path[n] == []
         else
           && node[n].parent != null && node[n].parent in node
           && node[n].macroValue in node[node[n].parent].children
           && node[node[n].parent].children[node[n].macroValue] == n
    }

    ghost predicate Linked() {
      && root in node && path.Keys == node.Keys && node[root].entry == None
      && (forall n {:trigger Known(n)} :: n in node ==> Known(n))
      && (forall n {:trigger Down(n)} :: n in node ==> Down(n))
      && (forall n {:trigger Up(n)} :: n in node ==> Up(n))
    }

    /** The node leads to an entry. */
    ghost predicate Fruitful(n: CacheTree) {
      n in path && exists l :: l in node && l in path && node[l].entry.Some? && path[n] <= path[l]
    }

    /** Every node leads to an entry, but perhaps those on the way to `exempt`. */
    ghost predicate FruitfulBut(exempt: seq<Macro>) {
      forall n {:trigger Fruitful(n)} :: n in node && n in path ==> path[n] <= exempt || Fruitful(n)
    }

    /** An inner node that asks for a macro has a child. */
    ghost predicate Tidy(bare: set<CacheTree>) {
      forall n :: n in node && n != root && n !in bare && node[n].macroName.Some? ==> node[n].children != map[]
    }

    ghost predicate Valid() {
      Linked() && FruitfulBut([]) && Tidy({})
    }

    /** The finite map from used lists to entries that the tree stands for. */
    ghost function View(): map<seq<Macro>, Entry> {
      map p | p in nodeAt && Known(nodeAt[p]) && path[nodeAt[p]] == p && node[nodeAt[p]].entry.Some?
        :: node[nodeAt[p]].entry.value
    }

    lemma ViewAt(n: CacheTree)
      requires Linked() && n in node
      ensures node[n].entry.Some? <==> path[n] in View()
      ensures node[n].entry.Some? ==> View()[path[n]] == node[n].entry.value
    {
      assert Known(n);
    }

    /** Every prefix of a node's path leads to a node. */
    lemma {:induction false} Ancestor(n: CacheTree, k: nat) returns (a: CacheTree)
      requires Linked() && n in node && k <= |path[n]|
      ensures a in node && path[a] == path[n][..k]
      decreases |path[n]|
    {
      if k == |path[n]| {
        a := n;
      } else {
        assert Up(n) && Down(node[n].parent);
        assert ChildLink(node[n].parent, node[n].macroValue);
        a := Ancestor(node[n].parent, k);
        assert path[n][..|path[node[n].parent]|] == path[node[n].parent];
      }
    }

    /** Whatever lies below a node lies below one of its children. */
    lemma ChildOnPath(n: CacheTree, l: CacheTree)
      requires Linked() && n in node && l in node && path[n] <= path[l] && |path[n]| < |path[l]|
      ensures var p := path[l][|path[n]|];
        node[n].macroName == Some(p.0) && p.1 in node[n].children && node[n].children[p.1] in node
        && path[node[n].children[p.1]] == path[n] + [p] && path[node[n].children[p.1]] <= path[l]
    {
      var k := |path[n]|;
      var a := Ancestor(l, k + 1);
      assert Up(a) && Down(node[a].parent);
      assert ChildLink(node[a].parent, node[a].macroValue);
      assert path[node[a].parent] == path[a][..k] == path[n];
      assert Known(node[a].parent) && Known(n);
      assert path[a][k] == path[l][k];
    }

    // --- Looking up ----------------------------------------------------------------

    lemma AtEntry(n: CacheTree)
      requires Linked() && n in node && node[n].entry.Some?
      ensures forall p :: p in View() && path[n] <= p ==> p == path[n]
    {
      assert Down(n);
      forall p | p in View() && path[n] <= p
        ensures p == path[n]
      {
        if |path[n]| < |p| {
          ChildOnPath(n, nodeAt[p]);
        }
      }
    }

    /** A matching path through an inner node goes on to the child for the macro's
        current value. */
    lemma OnTheWay(n: CacheTree, m: MacroMap)
      requires Linked() && n in node && node[n].entry == None
      ensures forall p :: p in View() && Matches(p, m) && path[n] <= p ==>
        && node[n].macroName.Some? && Lookup(m, node[n].macroName.value) in node[n].children
        && node[n].children[Lookup(m, node[n].macroName.value)] in node
        && path[node[n].children[Lookup(m, node[n].macroName.value)]] <= p
    {
      forall p | p in View() && Matches(p, m) && path[n] <= p
        ensures
          && node[n].macroName.Some? && Lookup(m, node[n].macroName.value) in node[n].children
          && node[n].children[Lookup(m, node[n].macroName.value)] in node
          && path[node[n].children[Lookup(m, node[n].macroName.value)]] <= p
      {
        ViewAt(n);
        assert p != path[n];
        ChildOnPath(n, nodeAt[p]);
      }
    }

    // --- Adding a path --------------------------------------------------------------

    /** The path can be added: it is consistent with every path in the tree and begins
        with the macro the root asks for. */
    ghost predicate Fits(used: seq<Macro>) {
      && used != [] && root in node
      && (node[root].macroName.Some? ==> node[root].macroName.value == used[0].0)
      && FitsView(View(), used)
    }

    /** On the way along a fitting path an inner node holds no entry and asks for the
        path's next macro; where the path ends there are no children. */
    lemma FitsNode(used: seq<Macro>, n: CacheTree)
      requires Linked() && FruitfulBut(used) && Tidy({}) && Fits(used) && n in node && path[n] <= used
      ensures path[n] < used ==>
        node[n].entry == None && (node[n].macroName.Some? ==> node[n].macroName.value == used[|path[n]|].0)
      ensures path[n] == used ==> node[n].children == map[] && n != root
    {
      var i := |path[n]|;
      ViewAt(n);
      assert Down(n) && Up(n) && Up(root);
      if node[n].entry.Some? {
        assert Consistent(path[n], used);
        assert path[n][..i] == used[..i];
      }
      if node[n].children != map[] {
        var v :| v in node[n].children;
        var c := node[n].children[v];
        assert ChildLink(n, v);
        assert path[c] <= used ==> path[c][i] == used[i];
        if !(path[c] <= used) {
          assert Fruitful(c);
          var l :| l in node && l in path && node[l].entry.Some? && path[c] <= path[l];
          ViewAt(l);
          assert Consistent(path[l], used);
          assert path[l][..i] == used[..i];
          assert path[l][i] == path[c][i];
        }
      }
    }

    lemma NoNodeYet(n: CacheTree, p: Macro)
      requires Linked() && n in node && (node[n].macroName == Some(p.0) ==> p.1 !in node[n].children)
      ensures forall c :: c in node ==> path[c] != path[n] + [p]
    {
      forall c | c in node
        ensures path[c] != path[n] + [p]
      {
        if path[c] == path[n] + [p] {
          ChildOnPath(n, c);
        }
      }
    }

    /** `child` has been made the child of `n` for (name, value). */
    ghost function Grown(n: CacheTree, name: MacroName, value: MacroValue, child: CacheTree): Graph
      requires n in node && n in path
    {
      var p := path[n] + [(name, value)];
      Graph(root,
        node[n := node[n].(macroName := Some(name), children := node[n].children[value := child])]
            [child := Node(None, None, map[], n, value)],
        path[child := p], nodeAt[p := child])
    }

    /** A state of the walk towards `used`. */
    ghost predicate Walking(used: seq<Macro>) {
      Linked() && FruitfulBut(used) && Tidy({})
    }

    /** A new child may be hung under `n` on the way to `used`. */
    ghost predicate MayGrow(used: seq<Macro>, n: CacheTree, name: MacroName, value: MacroValue, child: CacheTree) {
      && Linked() && FruitfulBut(used) && Tidy({}) && n in node && node[n].entry == None && child !in node
      && (node[n].macroName == None || node[n].macroName == Some(name)) && value !in node[n].children
      && path[n] + [(name, value)] <= used
    }

    lemma GrownUp(used: seq<Macro>, n: CacheTree, name: MacroName, value: MacroValue, child: CacheTree)
      requires MayGrow(used, n, name, value, child)
      ensures var g := Grown(n, name, value, child);
        (forall m {:trigger g.Known(m)} :: m in g.node ==> g.Known(m))
        && (forall m {:trigger g.Up(m)} :: m in g.node ==> g.Up(m))
    {
      var g := Grown(n, name, value, child);
      NoNodeYet(n, (name, value));
      forall m | m in g.node
        ensures g.Known(m) && g.Up(m)
      {
        assert m != child ==> Known(m) && Up(m);
      }
    }

    lemma GrownDown(used: seq<Macro>, n: CacheTree, name: MacroName, value: MacroValue, child: CacheTree)
      requires MayGrow(used, n, name, value, child)
      ensures var g := Grown(n, name, value, child); forall m {:trigger g.Down(m)} :: m in g.node ==> g.Down(m)
    {
      var g := Grown(n, name, value, child);
      GrownUp(used, n, name, value, child);
      forall m | m in g.node
        ensures g.Down(m)
      {
        if m != child {
          assert Down(m) && g.Known(m) && g.Known(child);
          forall v | v in g.node[m].children
            ensures g.ChildLink(m, v)
          {
            if m != n || v != value {
              assert ChildLink(m, v);
              assert g.Known(node[m].children[v]);
            }
          }
        }
      }
    }

    lemma GrownTidy(used: seq<Macro>, n: CacheTree, name: MacroName, value: MacroValue, child: CacheTree)
      requires MayGrow(used, n, name, value, child)
      ensures Grown(n, name, value, child).Tidy({})
    {
      var g := Grown(n, name, value, child);
      assert value in g.node[n].children;
    }

    lemma GrownWalking(used: seq<Macro>, n: CacheTree, name: MacroName, value: MacroValue, child: CacheTree)
      requires MayGrow(used, n, name, value, child)
      ensures Grown(n, name, value, child).Walking(used)
      ensures Grown(n, name, value, child).View() == View()
    {
      GrownUp(used, n, name, value, child);
      GrownDown(used, n, name, value, child);
      GrownTidy(used, n, name, value, child);
      GrownFruitful(used, n, name, value, child);
      GrownView(used, n, name, value, child);
    }

    lemma GrownView(used: seq<Macro>, n: CacheTree, name: MacroName, value: MacroValue, child: CacheTree)
      requires MayGrow(used, n, name, value, child)
      ensures Grown(n, name, value, child).View() == View()
    {
      var g := Grown(n, name, value, child);
      NoNodeYet(n, (name, value));
      var p := path[n] + [(name, value)];
      forall q
        ensures q in View() <==> q in g.View()
        ensures q in View() ==> g.View()[q] == View()[q]
      {
        if q in nodeAt && q != p {
          assert nodeAt[q] != child ==> Known(nodeAt[q]) == g.Known(nodeAt[q]);
        }
      }
    }

    lemma GrownFruitful(used: seq<Macro>, n: CacheTree, name: MacroName, value: MacroValue, child: CacheTree)
      requires MayGrow(used, n, name, value, child)
      ensures Grown(n, name, value, child).FruitfulBut(used)
    {
      var g := Grown(n, name, value, child);
      forall m | m in g.node && m in g.path
        ensures g.path[m] <= used || g.Fruitful(m)
      {
        if m != child && !(path[m] <= used) {
          assert Fruitful(m);
          var l :| l in node && l in path && node[l].entry.Some? && path[m] <= path[l];
          assert l in g.node && g.node[l].entry.Some? && g.path[m] <= g.path[l];
        }
      }
    }

    /** An entry has been put on the leaf `n`. */
    ghost function WithEntry(n: CacheTree, e: Entry): Graph
      requires n in node
    {
      this.(node := node[n := node[n].(entry := Some(e))])
    }

    ghost predicate MayEnter(n: CacheTree) {
      Linked() && n in node && FruitfulBut(path[n]) && Tidy({}) && n != root && node[n].children == map[]
    }

    lemma WithEntryLinked(n: CacheTree, e: Entry)
      requires MayEnter(n)
      ensures WithEntry(n, e).Linked() && WithEntry(n, e).Tidy({})
    {
      var g := WithEntry(n, e);
      forall m | m in g.node
        ensures g.Known(m) && g.Up(m) && g.Down(m)
      {
        assert Known(m) && Up(m) && Down(m);
        forall v | v in g.node[m].children
          ensures g.ChildLink(m, v)
        {
          assert ChildLink(m, v);
        }
      }
    }

    lemma WithEntryView(n: CacheTree, e: Entry)
      requires MayEnter(n)
      ensures WithEntry(n, e).View() == View()[path[n] := e]
    {
      var g := WithEntry(n, e);
      assert Known(n);
      forall q | q in nodeAt
        ensures g.Known(nodeAt[q]) == Known(nodeAt[q])
      {
      }
    }

    lemma WithEntryFruitful(n: CacheTree, e: Entry)
      requires MayEnter(n)
      ensures WithEntry(n, e).FruitfulBut([])
    {
      var g := WithEntry(n, e);
      forall m | m in g.node && m in g.path
        ensures g.Fruitful(m)
      {
        if path[m] <= path[n] {
          assert n in g.node && g.node[n].entry.Some?;
        } else {
          assert Fruitful(m);
          var l :| l in node && l in path && node[l].entry.Some? && path[m] <= path[l];
          assert l in g.node && g.node[l].entry.Some? && g.path[m] <= g.path[l];
        }
      }
    }

    lemma WithEntryValid(n: CacheTree, e: Entry)
      requires MayEnter(n)
      ensures WithEntry(n, e).Valid() && WithEntry(n, e).View() == View()[path[n] := e]
    {
      WithEntryLinked(n, e);
      WithEntryView(n, e);
      WithEntryFruitful(n, e);
    }

    lemma AlreadyEntered(n: CacheTree)
      requires MayEnter(n) && node[n].entry.Some?
      ensures Valid() && path[n] in View() && View()[path[n]] == node[n].entry.value
    {
      ViewAt(n);
      WithEntryFruitful(n, node[n].entry.value);
      assert WithEntry(n, node[n].entry.value) == this;
    }

    // --- Removing an entry ------------------------------------------------------------

    /** The childless node `n` has been erased from its parent. */
    ghost function Without(n: CacheTree): Graph
      requires n in node && n in path && node[n].parent != null && node[n].parent in node
    {
      var q := node[n].parent;
      var q' := node[q].(children := node[q].children - {node[n].macroValue});
      Graph(root,
        map m | m in node && m != n :: if m == q then q' else node[m],
        map m | m in path && m != n :: path[m], nodeAt)
    }

    ghost predicate MayErase(n: CacheTree) {
      Linked() && n in node && n != root && node[n].children == map[]
    }

    lemma ParentOf(n: CacheTree) returns (q: CacheTree, p: Macro)
      requires Linked() && n in node && n != root
      ensures node[n].parent == q && q in node && q != n
      ensures path[n] == path[q] + [p] && node[q].entry == None
    {
      assert Up(n) && Known(n);
      q := node[n].parent;
      assert Down(q) && ChildLink(q, node[n].macroValue);
      p := (node[q].macroName.value, node[n].macroValue);
    }

    lemma WithoutUp(n: CacheTree)
      requires MayErase(n) && node[n].parent != null && node[n].parent in node && n in path
      ensures var g := Without(n);
        (forall m {:trigger g.Known(m)} :: m in g.node ==> g.Known(m))
        && (forall m {:trigger g.Up(m)} :: m in g.node ==> g.Up(m))
    {
      var g := Without(n);
      assert Up(n);
      forall m | m in g.node
        ensures g.Known(m) && g.Up(m)
      {
        assert Known(m) && Up(m);
      }
    }

    lemma WithoutDown(n: CacheTree)
      requires MayErase(n) && node[n].parent != null && node[n].parent in node && n in path
      ensures var g := Without(n);
        (forall m {:trigger g.Down(m)} :: m in g.node ==> g.Down(m))
        && (Tidy({n}) ==> g.Tidy({node[n].parent}))
    {
      var g := Without(n);
      WithoutUp(n);
      assert Up(n);
      forall m | m in g.node
        ensures g.Down(m)
      {
        assert Down(m) && g.Known(m);
        forall v | v in g.node[m].children
          ensures g.ChildLink(m, v)
        {
          assert ChildLink(m, v);
          assert g.Known(node[m].children[v]);
        }
      }
    }

    lemma WithoutView(n: CacheTree)
      requires MayErase(n) && node[n].parent != null && node[n].parent in node && n in path
      ensures Without(n).View() == View() - {path[n]}
    {
      var g := Without(n);
      assert Known(n);
      forall q | q in nodeAt
        ensures g.Known(nodeAt[q]) == (Known(nodeAt[q]) && nodeAt[q] != n)
      {
      }
    }

    lemma WithoutFruitful(n: CacheTree)
      requires MayErase(n) && node[n].parent != null && node[n].parent in node && n in path
      requires FruitfulBut(path[n])
      ensures Without(n).FruitfulBut(path[node[n].parent])
    {
      var g := Without(n);
      var q, p := ParentOf(n);
      forall m | m in g.node && m in g.path
        ensures g.path[m] <= path[q] || g.Fruitful(m)
      {
        assert Known(m) && Known(n);
        if !(path[m] <= path[q]) {
          assert path[m] != path[n];
          assert !(path[m] <= path[n]);
          assert Fruitful(m);
          var l :| l in node && l in path && node[l].entry.Some? && path[m] <= path[l];
          assert l in g.node && g.node[l].entry.Some? && g.path[m] <= g.path[l];
        }
      }
    }

    /** A state of the climb that erases childless nodes up to `n`. */
    ghost predicate Climbing(n: CacheTree) {
      Linked() && n in node && FruitfulBut(path[n]) && Tidy({n})
    }

    lemma WithoutClimbing(n: CacheTree)
      requires Climbing(n) && n != root && node[n].children == map[]
      ensures node[n].parent != null && node[n].parent in node && node[n].parent != n
      ensures node[node[n].parent].entry == None
      ensures Without(n).Climbing(node[n].parent)
      ensures Without(n).View() == View() - {path[n]}
    {
      var q, p := ParentOf(n);
      WithoutUp(n);
      WithoutDown(n);
      WithoutView(n);
      WithoutFruitful(n);
    }

    /** Once every node on the way has another child, or the root is reached, the tree is
        whole again. */
    lemma ErasedEnough(n: CacheTree)
      requires Climbing(n) && (node[n].children != map[] || n == root)
      ensures Valid()
    {
      assert Known(n) && Up(root) && Down(n);
      forall m | m in node && m in path
        ensures path[m] <= [] || Fruitful(m)
      {
        if path[m] <= path[n] && node[n].children != map[] {
          var v :| v in node[n].children;
          var c := node[n].children[v];
          assert ChildLink(n, v);
          assert Fruitful(c);
          var l :| l in node && l in path && node[l].entry.Some? && path[c] <= path[l];
          assert path[m] <= path[l];
        }
      }
    }
  }

  /** The tree of one file. */
  class CacheIndex {
    const root: CacheTree
    ghost var nodes: set<CacheTree>
    ghost var graph: Graph

    /** `graph` is what the nodes hold now. */
    ghost predicate InSync()
      reads this, nodes
    {
      graph.root == root && root in nodes && graph.node.Keys == nodes && forall n :: n in nodes ==> graph.node[n] == n.Fields()
    }

    ghost predicate Valid()
      reads this, nodes
    {
      InSync() && graph.Valid()
    }

    ghost function View(): map<seq<Macro>, Entry>
      reads this
    {
      graph.View()
    }

    constructor ()
      ensures Valid() && fresh(nodes) && View() == map[] && root.macroName == None
    {
      root := new CacheTree();
      nodes := {root};
      graph := Graph(root, map[root := EMPTY_NODE], map[root := []], map[[] := root]);
      new;
      assert graph.Known(root) && graph.Down(root) && graph.Up(root);
    }

    /** The leaf whose whole path the state matches, if there is one; no other path in the
        tree matches. */
    method Find(m: MacroState) returns (leaf: CacheTree?)
      requires Valid()
      ensures leaf != null ==>
        leaf in nodes && leaf.entry.Some? && Matches(graph.path[leaf], m.values)
        && graph.path[leaf] in View() && View()[graph.path[leaf]] == leaf.entry.value
      ensures forall p :: p in View() && Matches(p, m.values) ==> leaf != null && p == graph.path[leaf]
    {
      var current := root;
      assert graph.Up(root);
      ghost var key := [];
      ghost var seen: set<CacheTree> := {};
      while true
        invariant current in nodes && current in graph.path && key == graph.path[current] && Matches(key, m.values)
        invariant seen <= nodes && forall n :: n in seen ==> |graph.path[n]| < |key|
        invariant forall p :: p in View() && Matches(p, m.values) ==> key <= p
        decreases nodes - seen
      {
        if current.entry.Some? {
          graph.ViewAt(current);
          graph.AtEntry(current);
          return current;
        }
        graph.OnTheWay(current, m.values);
        var value := Undefined;
        if current.macroName.Some? {
          value := m.GetMacroValue(current.macroName.value);
        }
        if value !in current.children {
          return null;
        }
        assert graph.Down(current) && graph.ChildLink(current, value);
        assert current in nodes - seen;
        seen := seen + {current};
        current := current.children[value];
        key := graph.path[current];
      }
    }

    /** The path to a node, collected on the way up. */
    method GetPath(node: CacheTree) returns (result: seq<Macro>)
      requires Valid() && node in nodes
      ensures result == graph.path[node]
    {
      result := [];
      var current := node;
      while current.parent != null
        invariant current in nodes && graph.path[node] == graph.path[current] + result
        decreases |graph.path[current]|
      {
        assert graph.Up(current) && graph.Down(current.parent);
        assert graph.ChildLink(current.parent, current.macroValue);
        result := [(current.parent.macroName.value, current.macroValue)] + result;
        current := current.parent;
      }
      assert graph.Up(current);
    }

    /** Walks to the node for a path, growing the tree where it does not reach yet. */
    method GetChild(used: seq<Macro>) returns (current: CacheTree)
      requires Valid() && graph.Fits(used)
      modifies this, nodes
      ensures InSync() && graph.Walking(used) && View() == old(View())
      ensures current in nodes && graph.path[current] == used && current.children == map[] && current != root
      ensures fresh(nodes - old(nodes)) && old(nodes) <= nodes
      ensures root.macroName == Some(used[0].0)
    {
      current := root;
      assert graph.Up(root);
      var i := 0;
      while i < |used|
        invariant 0 <= i <= |used|
        invariant InSync() && graph.Walking(used) && graph.Fits(used) && View() == old(View())
        invariant current in nodes && graph.path[current] == used[..i]
        invariant fresh(nodes - old(nodes)) && old(nodes) <= nodes
        invariant i > 0 ==> root.macroName == Some(used[0].0)
      {
        current := Step(used, current, i);
        i := i + 1;
      }
      assert used[..i] == used;
      OnPath(used, current, i);
    }

    method Step(used: seq<Macro>, n: CacheTree, i: nat) returns (child: CacheTree)
      requires InSync() && graph.Walking(used) && graph.Fits(used)
      requires n in nodes && i < |used| && graph.path[n] == used[..i] && (i > 0 ==> root.macroName == Some(used[0].0))
      modifies this, nodes
      ensures InSync() && graph.Walking(used) && graph.Fits(used) && View() == old(View())
      ensures child in nodes && graph.path[child] == used[..i + 1]
      ensures fresh(nodes - old(nodes)) && old(nodes) <= nodes
      ensures root.macroName == Some(used[0].0)
    {
      OnPath(used, n, i);
      assert used[..i] + [used[i]] == used[..i + 1];
      child := Child(used, n, used[i].0, used[i].1);
    }

    lemma OnPath(used: seq<Macro>, n: CacheTree, i: nat)
      requires InSync() && graph.Walking(used) && graph.Fits(used)
      requires n in nodes && i <= |used| && graph.path[n] == used[..i]
      ensures i < |used| ==> n.entry == None && (n.macroName.Some? ==> n.macroName.value == used[i].0)
      ensures i == 0 <==> n == root
      ensures i == |used| ==> n.children == map[]
    {
      assert graph.Up(root) && graph.Known(root) && graph.Known(n);
      graph.FitsNode(used, n);
    }

    /** One step of the walk. */
    method Child(ghost used: seq<Macro>, n: CacheTree, name: MacroName, value: MacroValue) returns (child: CacheTree)
      requires InSync() && graph.Walking(used)
      requires n in nodes && n.entry == None && (n.macroName == None || n.macroName == Some(name))
      requires graph.path[n] + [(name, value)] <= used
      modifies this, n
      ensures InSync() && graph.Walking(used) && View() == old(View())
      ensures child in nodes && graph.path[child] == old(graph.path[n]) + [(name, value)]
      ensures fresh(nodes - old(nodes)) && old(nodes) <= nodes
      ensures root.macroName == if n == root then Some(name) else old(root.macroName)
    {
      assert graph.Down(n) && graph.Known(n);
      if value in n.children {
        child := n.children[value];
        assert graph.ChildLink(n, value);
      } else {
        child := new CacheTree();
        graph.GrownWalking(used, n, name, value, child);
        Hang(n, name, value, child);
      }
    }

    method Hang(n: CacheTree, name: MacroName, value: MacroValue, child: CacheTree)
      requires InSync() && n in nodes && n in graph.path && n.entry == None
      requires child !in nodes && child.Fields() == EMPTY_NODE
      modifies this, n, child
      ensures InSync() && graph == old(graph).Grown(n, name, value, child) && nodes == old(nodes) + {child}
      ensures root.macroName == if n == root then Some(name) else old(root.macroName)
    {
      n.macroName := Some(name);
      n.children := n.children[value := child];
      child.parent, child.macroValue := n, value;
      nodes, graph := nodes + {child}, graph.Grown(n, name, value, child);
    }

    /** Adds an entry for a path unless it has one already. */
    method AddEntry(used: seq<Macro>, e: Entry) returns (node: CacheTree)
      requires Valid() && graph.Fits(used)
      modifies this, nodes
      ensures Valid() && fresh(nodes - old(nodes)) && root.macroName == Some(used[0].0)
      ensures View() == if used in old(View()) then old(View()) else old(View())[used := e]
      ensures used in View() && node in nodes && graph.path[node] == used
    {
      node := GetChild(used);
      if node.entry.Some? {
        graph.AlreadyEntered(node);
      } else {
        graph.ViewAt(node);
        graph.WithEntryValid(node, e);
        SetEntry(node, e);
      }
    }

    method SetEntry(node: CacheTree, e: Entry)
      requires InSync() && node in nodes
      modifies this, node
      ensures InSync() && graph == old(graph).WithEntry(node, e) && nodes == old(nodes)
      ensures root.macroName == old(root.macroName)
    {
      node.entry := Some(e);
      graph := graph.WithEntry(node, e);
    }

    /** Removes the entry on a leaf, and every node that is left without a child. */
    method Detach(node: CacheTree)
      requires Valid() && node in nodes && node.entry.Some?
      modifies this, nodes
      ensures Valid() && nodes <= old(nodes) && root.macroName == old(root.macroName)
      ensures View() == old(View()) - {old(graph.path[node])}
    {
      assert graph.Down(node);
      var parent := Erase(node);
      while parent.children == map[] && parent.parent != null
        invariant InSync() && parent in nodes && nodes <= old(nodes)
        invariant graph.Climbing(parent) && parent.entry == None
        invariant View() == old(View()) - {old(graph.path[node])}
        invariant root.macroName == old(root.macroName)
        decreases nodes
      {
        assert graph.Up(parent);
        parent := Erase(parent);
      }
      assert graph.Up(parent);
      graph.ErasedEnough(parent);
    }

    /** Erases a childless node from its parent. */
    method Erase(node: CacheTree) returns (parent: CacheTree)
      requires InSync() && node in nodes && node != root && node.children == map[] && graph.Climbing(node)
      modifies this, nodes
      ensures InSync() && parent in nodes && graph.Climbing(parent)
      ensures parent.entry == None && nodes == old(nodes) - {node}
      ensures View() == if old(node.entry).Some? then old(View()) - {old(graph.path[node])} else old(View())
      ensures root.macroName == old(root.macroName)
    {
      graph.ViewAt(node);
      graph.WithoutClimbing(node);
      parent := node.parent;
      Unlink(node, parent);
    }

    method Unlink(node: CacheTree, parent: CacheTree)
      requires InSync() && node in nodes && node != root && node.parent == parent && parent in nodes && node != parent
      requires node in graph.path
      modifies this, node, parent
      ensures InSync() && graph == old(graph).Without(node) && nodes == old(nodes) - {node}
      ensures root.macroName == old(root.macroName) && parent.entry == old(parent.entry)
    {
      parent.children := parent.children - {node.macroValue};
      node.entry, node.parent := None, null;
      nodes, graph := nodes - {node}, graph.Without(node);
    }
  }
}
