/**
 Key chords (internal/tui/keybind.go): a trie on the heap that binds key
 sequences, matches what has been typed so far, and lists its bindings.
 */
module Chords {
  import opened Options

  type Keys = seq<string>

  class ChordNode<B> {
    var binding: Option<B>
    var children: map<string, ChordNode<B>>
    ghost const path: Keys

    constructor (ghost path: Keys)
      ensures binding == None && children == map[] && this.path == path
    {
      binding, children := None, map[];
      this.path := path;
    }
  }

  /** Some bound sequence starts with p. */
  ghost predicate Leads(bound: set<Keys>, p: Keys) {
    exists s :: s in bound && p <= s
  }

  /** Some strictly longer bound sequence starts with p. */
  ghost predicate Continues(bound: set<Keys>, p: Keys) {
    exists s :: s in bound && p < s
  }

  /** q is one of the first parts of a sequence, up to length i. */
  ghost predicate PartOf(q: Keys, keys: Keys, i: nat) { |q| <= i && q <= keys }

  lemma PartStep(keys: Keys, i: nat)
    requires i < |keys|
    ensures keys[..i + 1] == keys[..i] + [keys[i]]
    ensures forall q :: PartOf(q, keys, i + 1) <==> PartOf(q, keys, i) || q == keys[..i + 1]
  {
    forall q ensures PartOf(q, keys, i + 1) <==> PartOf(q, keys, i) || q == keys[..i + 1] {
      if PartOf(q, keys, i + 1) && |q| == i + 1 {
        assert q == keys[..i + 1];
      }
    }
  }

  lemma WholePrefix(keys: Keys)
    ensures keys[..|keys|] == keys
  {
  }

  /** What leads anywhere once keys are bound too. */
  lemma LeadsMore(bound: set<Keys>, keys: Keys, p: Keys)
    ensures Leads(bound + {keys}, p) <==> Leads(bound, p) || p <= keys
  {
    if Leads(bound, p) {
      var s :| s in bound && p <= s;
      assert s in bound + {keys};
    }
    if p <= keys {
      assert keys in bound + {keys};
    }
  }

  lemma ContinuesByKey(bound: set<Keys>, p: Keys)
    ensures Continues(bound, p) <==> exists k :: Leads(bound, p + [k])
  {
    if Continues(bound, p) {
      var s :| s in bound && p < s;
      assert p + [s[|p|]] <= s;
      assert Leads(bound, p + [s[|p|]]);
    }
    if k :| Leads(bound, p + [k]) {
      var s :| s in bound && p + [k] <= s;
      assert p < s;
    }
  }

  lemma SnocInjective(p: Keys, j: string, q: Keys, k: string)
    requires p + [j] == q + [k]
    ensures p == q && j == k
  {
    assert p == (p + [j])[..|p|] && j == (p + [j])[|p|];
  }

  lemma SnocsDiffer(p: Keys, k: string)
    ensures forall q: Keys, j {:trigger q + [j]} :: q + [j] == p + [k] ==> q == p && j == k
  {
    forall q: Keys, j {:trigger q + [j]} | q + [j] == p + [k] ensures q == p && j == k {
      SnocInjective(q, j, p, k);
    }
  }

  lemma SnocLonger(p: Keys, k: string)
    ensures p + [k] != p
  {
    assert |p + [k]| == |p| + 1;
  }

  class ChordTrie<B> {
    const root: ChordNode<B>

    // The node of every path, and the last binding inserted for every sequence.
    ghost var nodes: map<Keys, ChordNode<B>>
    ghost var bindings: map<Keys, B>
    ghost var repr: set<ChordNode<B>>

    /** The node of a path knows its path, and its children are exactly the nodes one key further. */
    ghost predicate Linked(p: Keys, n: ChordNode<B>)
      reads this`nodes, this`repr, n`children
    {
      && n in repr && n.path == p
      && (forall k :: k in n.children <==> p + [k] in nodes)
      && (forall k :: k in n.children ==> p + [k] in nodes && n.children[k] == nodes[p + [k]])
    }

    ghost predicate Tree()
      reads this`nodes, this`repr, repr`children
    {
      && [] in nodes && nodes[[]] == root
      && (forall p, k :: p + [k] in nodes ==> p in nodes)
      && (forall p {:trigger nodes[p]} :: p in nodes ==> nodes[p] in repr && Linked(p, nodes[p]))
    }

    ghost predicate Valid()
      reads this`nodes, this`bindings, this`repr, repr
    {
      && Tree()
      && Bound()
      && (forall p: Keys :: p in nodes <==> p == [] || Leads(bindings.Keys, p))
    }

    ghost predicate Bound()
      reads this`nodes, this`bindings, this`repr, repr`binding
    {
      && (forall p :: p in bindings ==> p in nodes)
      && forall p: Keys {:trigger nodes[p]} :: p in nodes ==>
        nodes[p] in repr && nodes[p].binding == if p in bindings then Some(bindings[p]) else None
    }

    constructor ()
      ensures Valid() && bindings == map[] && fresh(repr)
    {
      var n := new ChordNode<B>([]);
      root := n;
      nodes := map[[] := n];
      repr := {n};
      bindings := map[];
    }

    method Grow(cur: ChordNode<B>, k: string, ghost p: Keys) returns (child: ChordNode<B>)
      requires Tree() && p in nodes && nodes[p] == cur && k !in cur.children
      modifies this`nodes, this`repr, cur`children
      ensures Tree() && nodes == old(nodes)[p + [k] := child] && repr == old(repr) + {child}
      ensures fresh(child) && child.binding == None && p + [k] !in old(nodes)
    {
      child := new ChordNode<B>(p + [k]);
      cur.children := cur.children[k := child];
      nodes := nodes[p + [k] := child];
      repr := repr + {child};
      SnocsDiffer(p, k);
      forall q | q in nodes ensures Linked(q, nodes[q]) {
        if q == p + [k] {
          forall k' ensures q + [k'] !in nodes {
            SnocLonger(q, k');
          }
        }
      }
    }

    /** The child of a node for a key, made if it is not there. */
    method Child(cur: ChordNode<B>, k: string, ghost p: Keys) returns (child: ChordNode<B>)
      requires Tree() && Bound() && p in nodes && nodes[p] == cur
      modifies this`nodes, this`repr, cur`children
      ensures Tree() && Bound() && p + [k] in nodes && nodes[p + [k]] == child
      ensures forall q :: q in nodes <==> q in old(nodes) || q == p + [k]
      ensures fresh(repr - old(repr))
    {
      if k in cur.children {
        child := cur.children[k];
        assert p + [k] in nodes;
      } else {
        ghost var before, bound := nodes, bindings;
        child := Grow(cur, k, p);
        forall q | q in nodes ensures nodes[q].binding == if q in bound then Some(bound[q]) else None {
          if q != p + [k] {
            assert nodes[q] == before[q];
          }
        }
      }
    }

    /** One more key on the way down. */
    method Step(cur: ChordNode<B>, keys: Keys, i: nat) returns (child: ChordNode<B>)
      requires Tree() && Bound() && i < |keys| && keys[..i] in nodes && nodes[keys[..i]] == cur
      modifies this`nodes, this`repr, cur`children
      ensures Tree() && Bound() && keys[..i + 1] in nodes && nodes[keys[..i + 1]] == child
      ensures forall q :: q in nodes <==> q in old(nodes) || q == keys[..i + 1]
      ensures fresh(repr - old(repr))
    {
      PartStep(keys, i);
      child := Child(cur, keys[i], keys[..i]);
    }

    /** Follows a sequence from the root, making the nodes that are missing. */
    method Descend(keys: Keys) returns (cur: ChordNode<B>)
      requires Tree() && Bound()
      modifies this`nodes, this`repr, repr`children
      ensures Tree() && Bound() && keys in nodes && nodes[keys] == cur
      ensures forall q :: q in nodes <==> q in old(nodes) || PartOf(q, keys, |keys|)
      ensures fresh(repr - old(repr))
    {
      cur := root;
      assert keys[..0] == [];
      for i := 0 to |keys|
        invariant Tree() && Bound() && keys[..i] in nodes && nodes[keys[..i]] == cur
        invariant forall q {:trigger PartOf(q, keys, i)} {:trigger q in nodes} :: q in nodes <==>
          q in old(nodes) || PartOf(q, keys, i)
        invariant fresh(repr - old(repr))
      {
        PartStep(keys, i);
        cur := Step(cur, keys, i);
      }
      WholePrefix(keys);
    }

    /** Binds a sequence, replacing what it was bound to. */
    method Insert(keys: Keys, b: B)
      requires Valid()
      modifies this, repr
      ensures Valid() && bindings == old(bindings)[keys := b]
      ensures fresh(repr - old(repr))
    {
      var cur := Descend(keys);
      cur.binding := Some(b);
      bindings := bindings[keys := b];
      forall p ensures p in nodes <==> p == [] || Leads(bindings.Keys, p) {
        LeadsMore(old(bindings).Keys, keys, p);
        assert bindings.Keys == old(bindings).Keys + {keys};
      }
    }

    /**
     What a typed sequence means: the last binding inserted for exactly it, and whether a longer one
     starts with it.
     */
    method Match(keys: Keys) returns (binding: Option<B>, isPrefix: bool)
      requires Valid()
      ensures binding == if keys in bindings then Some(bindings[keys]) else None
      ensures isPrefix <==> Continues(bindings.Keys, keys)
    {
      var cur := root;
      for i := 0 to |keys|
        invariant keys[..i] in nodes && nodes[keys[..i]] == cur
      {
        PartStep(keys, i);
        if keys[i] !in cur.children {
          NotBound(keys, i + 1);
          return None, false;
        }
        cur := cur.children[keys[i]];
      }
      WholePrefix(keys);
      ChildrenContinue(keys);
      return cur.binding, |cur.children| > 0;
    }

    lemma ChildrenContinue(p: Keys)
      requires Valid() && p in nodes
      ensures |nodes[p].children| > 0 <==> Continues(bindings.Keys, p)
    {
      var cur := nodes[p];
      ContinuesByKey(bindings.Keys, p);
      if k :| k in cur.children {
        assert p + [k] in nodes;
        assert Leads(bindings.Keys, p + [k]);
      }
      if k :| Leads(bindings.Keys, p + [k]) {
        assert p + [k] in nodes;
        assert k in cur.children;
      }
    }

    lemma NotBound(keys: Keys, i: nat)
      requires Valid() && i <= |keys| && keys[..i] !in nodes
      ensures keys !in bindings && !Continues(bindings.Keys, keys)
    {
      if s :| s in bindings && keys <= s {
        assert keys[..i] <= s;
        assert Leads(bindings.Keys, keys[..i]);
      }
    }

    /** The paths at or below p that have a node. */
    ghost function Below(p: Keys): set<Keys>
      reads this`nodes
    {
      set q | q in nodes.Keys && p <= q
    }

    /** Lists every binding below a node, each once, in no particular order. */
    method Walk(n: ChordNode<B>, path: Keys) returns (out: seq<(Keys, B)>)
      requires Valid() && path in nodes && nodes[path] == n
      ensures ListsFrom(out, bindings, path)
      decreases Below(path)
    {
      out := if n.binding.Some? then [(path, n.binding.value)] else [];
      ListSelf(bindings, path);
      var todo := n.children.Keys;
      ghost var done: set<string> := {};
      while todo != {}
        invariant todo !! done && todo + done == n.children.Keys
        invariant Lists(out, bindings, path, done)
        decreases todo
      {
        var k :| k in todo;
        Deeper(path, k);
        var more := Walk(n.children[k], path + [k]);
        ListMore(out, more, bindings, path, done, k);
        out := out + more;
        todo, done := todo - {k}, done + {k};
      }
      ChildForEachKey(path);
      AllListed(out, bindings, path, n.children.Keys);
    }

    lemma Deeper(p: Keys, k: string)
      requires p in nodes
      ensures Below(p + [k]) < Below(p)
    {
      assert p in Below(p) && p !in Below(p + [k]);
      forall q | q in Below(p + [k]) ensures q in Below(p) {
        assert p <= p + [k] <= q;
      }
    }

    lemma ChildForEachKey(p: Keys)
      requires Valid() && p in nodes
      ensures forall k :: Leads(bindings.Keys, p + [k]) ==> k in nodes[p].children
    {
      forall k | Leads(bindings.Keys, p + [k]) ensures k in nodes[p].children {
        assert p + [k] in nodes;
      }
    }
  }

  /** Different entries are for different sequences. */
  ghost predicate Once<B>(out: seq<(Keys, B)>) {
    forall i, j :: 0 <= i < j < |out| ==> out[i].0 != out[j].0
  }

  /** out holds exactly the bindings of the sequences that start with p, each once. */
  ghost predicate ListsFrom<B>(out: seq<(Keys, B)>, bindings: map<Keys, B>, p: Keys) {
    && Once(out)
    && (forall e :: e in out ==> p <= e.0 && e.0 in bindings && bindings[e.0] == e.1)
    && (forall s :: s in bindings && p <= s ==> (s, bindings[s]) in out)
  }

  /** The same for p itself and the sequences that continue p with a key in done. */
  ghost predicate Lists<B>(out: seq<(Keys, B)>, bindings: map<Keys, B>, p: Keys, done: set<string>) {
    && Once(out)
    && (forall e :: e in out ==> Under(e.0, p, done) && e.0 in bindings && bindings[e.0] == e.1)
    && (forall s :: s in bindings && Under(s, p, done) ==> (s, bindings[s]) in out)
  }

  ghost predicate Under(s: Keys, p: Keys, done: set<string>) {
    s == p || (p < s && s[|p|] in done)
  }

  lemma UnderMore(s: Keys, p: Keys, done: set<string>, k: string)
    ensures Under(s, p, done + {k}) <==> Under(s, p, done) || p + [k] <= s
  {
  }

  lemma ListMore<B>(out: seq<(Keys, B)>, more: seq<(Keys, B)>, bindings: map<Keys, B>, p: Keys, done: set<string>,
    k: string)
    requires Lists(out, bindings, p, done) && ListsFrom(more, bindings, p + [k]) && k !in done
    ensures Lists(out + more, bindings, p, done + {k})
  {
    var all := out + more;
    forall i, j | 0 <= i < j < |all| ensures all[i].0 != all[j].0 {
      if i < |out| <= j {
        assert out[i] in out && more[j - |out|] in more;
      }
    }
    forall e | e in all ensures Under(e.0, p, done + {k}) && e.0 in bindings && bindings[e.0] == e.1 {
      UnderMore(e.0, p, done, k);
    }
    forall s | s in bindings && Under(s, p, done + {k}) ensures (s, bindings[s]) in all {
      UnderMore(s, p, done, k);
    }
  }

  lemma ListSelf<B>(bindings: map<Keys, B>, p: Keys)
    ensures Lists(if p in bindings then [(p, bindings[p])] else [], bindings, p, {})
  {
  }

  lemma AllListed<B>(out: seq<(Keys, B)>, bindings: map<Keys, B>, p: Keys, keys: set<string>)
    requires Lists(out, bindings, p, keys) && forall k :: Leads(bindings.Keys, p + [k]) ==> k in keys
    ensures ListsFrom(out, bindings, p)
  {
    forall s | s in bindings && p <= s ensures (s, bindings[s]) in out {
      if s != p {
        assert p + [s[|p|]] <= s;
        assert Leads(bindings.Keys, p + [s[|p|]]);
      }
    }
  }
}
