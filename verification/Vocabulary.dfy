/** The token trie of src/server_constraint.h. */
module Vocabularies {
  import opened Wrappers
  import opened Bytes

  datatype Node = Node(edges: seq<(byte, nat)>, ids: seq<int>)

  type Trie = seq<Node>

  datatype ConstraintError = Budget | NoToken | Violation | PieceTooLong

  const MAX_PIECE := 8192

  function FindEdge(edges: seq<(byte, nat)>, c: byte): Option<nat> {
    if edges == [] then None
    else if edges[0].0 == c then Some(edges[0].1)
    else FindEdge(edges[1..], c)
  }

  /** The node that a word leads to. */
  function Lookup(trie: Trie, node: nat, w: Word): Option<nat>
    decreases |w|
  {
    if node >= |trie| then None
    else if w == [] then Some(node)
    else match FindEdge(trie[node].edges, w[0])
         case None => None
         case Some(next) => Lookup(trie, next, w[1..])
  }

  /** Edges go to younger nodes, under distinct bytes; paths[n] is the word of node n. */
  ghost predicate IsTree(trie: Trie, paths: seq<Word>) {
    && |trie| == |paths| > 0
    && paths[0] == []
    && (forall n | 0 <= n < |trie| :: NodeIsTree(trie, paths, n))
    && (forall n | 0 <= n < |trie| :: Lookup(trie, 0, paths[n]) == Some(n))
  }

  ghost predicate NodeIsTree(trie: Trie, paths: seq<Word>, n: nat)
    requires n < |trie| == |paths|
  {
    var edges := trie[n].edges;
    && (forall i | 0 <= i < |edges| :: n < edges[i].1 < |trie| && paths[edges[i].1] == paths[n] + [edges[i].0])
    && (forall i, j | 0 <= i < j < |edges| :: edges[i].0 != edges[j].0)
  }

  /** Each node lists the tokens that its word spells, and every added token is listed. */
  ghost predicate Lists(trie: Trie, paths: seq<Word>, bytes: seq<Word>, added: set<int>) {
    && IsTree(trie, paths)
    && trie[0].ids == []
    && (forall n, i | 0 <= n < |trie| && 0 <= i < |trie[n].ids| ::
          var id := trie[n].ids[i]; 0 <= id < |bytes| && bytes[id] != [] && bytes[id] == paths[n] && id in added)
    && (forall id | id in added :: 0 <= id < |bytes| && (bytes[id] != [] ==> Stored(trie, bytes, id)))
  }

  ghost predicate Stored(trie: Trie, bytes: seq<Word>, id: int)
    requires 0 <= id < |bytes|
  {
    Lookup(trie, 0, bytes[id]).Some? && Lookup(trie, 0, bytes[id]).value < |trie|
    && id in trie[Lookup(trie, 0, bytes[id]).value].ids
  }

  lemma {:induction false} FindEdgeSound(edges: seq<(byte, nat)>, c: byte)
    ensures FindEdge(edges, c).Some? ==> (c, FindEdge(edges, c).value) in edges
    ensures FindEdge(edges, c).None? ==> forall i | 0 <= i < |edges| :: edges[i].0 != c
  {
    if edges != [] && edges[0].0 != c {
      FindEdgeSound(edges[1..], c);
    }
  }

  lemma {:induction false} FindEdgeExact(edges: seq<(byte, nat)>, i: nat)
    requires i < |edges| && forall j, k | 0 <= j < k < |edges| :: edges[j].0 != edges[k].0
    ensures FindEdge(edges, edges[i].0) == Some(edges[i].1)
  {
    if i > 0 {
      assert edges[0].0 != edges[i].0;
      FindEdgeExact(edges[1..], i - 1);
    }
  }

  lemma {:induction false} FindEdgePrefix(a: seq<(byte, nat)>, b: seq<(byte, nat)>, c: byte)
    requires a <= b && FindEdge(a, c).Some?
    ensures FindEdge(b, c) == FindEdge(a, c)
  {
    if a[0].0 != c {
      FindEdgePrefix(a[1..], b[1..], c);
    }
  }

  /** Distinct words lead to distinct nodes. */
  lemma {:induction false} LookupSpells(trie: Trie, paths: seq<Word>, node: nat, w: Word)
    requires IsTree(trie, paths) && node < |trie| && Lookup(trie, node, w).Some?
    ensures Lookup(trie, node, w).value < |trie|
    ensures paths[Lookup(trie, node, w).value] == paths[node] + w
    decreases |w|
  {
    if w != [] {
      FindEdgeSound(trie[node].edges, w[0]);
      var next := FindEdge(trie[node].edges, w[0]).value;
      assert NodeIsTree(trie, paths, node);
      LookupSpells(trie, paths, next, w[1..]);
      assert paths[node] + w == (paths[node] + [w[0]]) + w[1..];
    }
  }

  ghost predicate Grows(a: Trie, b: Trie) {
    |a| <= |b| && forall n | 0 <= n < |a| :: a[n].edges <= b[n].edges
  }

  lemma {:induction false} LookupGrows(a: Trie, b: Trie, node: nat, w: Word)
    requires Grows(a, b) && Lookup(a, node, w).Some?
    ensures Lookup(b, node, w) == Lookup(a, node, w)
    decreases |w|
  {
    if w != [] {
      FindEdgePrefix(a[node].edges, b[node].edges, w[0]);
      LookupGrows(a, b, FindEdge(a[node].edges, w[0]).value, w[1..]);
    }
  }

  lemma {:induction false} LookupExtends(trie: Trie, node: nat, w: Word, c: byte)
    requires Lookup(trie, node, w).Some? && Lookup(trie, node, w).value < |trie|
    ensures Lookup(trie, node, w + [c]) ==
            match FindEdge(trie[Lookup(trie, node, w).value].edges, c)
            case None => None
            case Some(next) => Lookup(trie, next, [])
    decreases |w|
  {
    if w == [] {
      assert w + [c] == [c];
      assert [c][1..] == [];
    } else {
      assert (w + [c])[1..] == w[1..] + [c];
      LookupExtends(trie, FindEdge(trie[node].edges, w[0]).value, w[1..], c);
    }
  }

  /** A new child under a byte that its parent lacks. */
  lemma ChildAdded(trie: Trie, paths: seq<Word>, bytes: seq<Word>, added: set<int>, n: nat, c: byte, next: Trie,
                   nextPaths: seq<Word>)
    requires Lists(trie, paths, bytes, added) && n < |trie| && FindEdge(trie[n].edges, c).None?
    requires next == trie[n := trie[n].(edges := trie[n].edges + [(c, |trie|)])] + [Node([], [])]
    requires nextPaths == paths + [paths[n] + [c]]
    ensures Lists(next, nextPaths, bytes, added)
  {
    FindEdgeSound(trie[n].edges, c);
    forall m | 0 <= m < |next| ensures NodeIsTree(next, nextPaths, m) {
      if m < |trie| {
        assert NodeIsTree(trie, paths, m);
      }
    }
    assert Grows(trie, next);
    forall m | 0 <= m < |next| ensures Lookup(next, 0, nextPaths[m]) == Some(m) {
      if m < |trie| {
        LookupGrows(trie, next, 0, paths[m]);
      } else {
        LookupGrows(trie, next, 0, paths[n]);
        LookupExtends(next, 0, paths[n], c);
        assert NodeIsTree(next, nextPaths, n);
        FindEdgeExact(next[n].edges, |trie[n].edges|);
      }
    }
    forall id | id in added && bytes[id] != [] ensures Stored(next, bytes, id) {
      LookupGrows(trie, next, 0, bytes[id]);
    }
  }

  lemma IdAdded(trie: Trie, paths: seq<Word>, bytes: seq<Word>, added: set<int>, n: nat, id: int, next: Trie)
    requires Lists(trie, paths, bytes, added) && n < |trie|
    requires 0 <= id < |bytes| && bytes[id] != [] && bytes[id] == paths[n]
    requires next == trie[n := trie[n].(ids := trie[n].ids + [id])]
    ensures Lists(next, paths, bytes, added + {id})
  {
    assert Grows(trie, next);
    forall m | 0 <= m < |next| ensures NodeIsTree(next, paths, m) && Lookup(next, 0, paths[m]) == Some(m) {
      assert NodeIsTree(trie, paths, m);
      LookupGrows(trie, next, 0, paths[m]);
    }
    forall x | x in added + {id} && bytes[x] != [] ensures Stored(next, bytes, x) {
      if x in added {
        LookupGrows(trie, next, 0, bytes[x]);
      }
    }
  }

  class TokenVocabulary {
    var trie: Trie
    var bytes: seq<Word>
    var ends: seq<int>
    ghost var paths: seq<Word>
    ghost var added: set<int>

    ghost predicate Valid()
      reads this
    {
      Lists(trie, paths, bytes, added)
    }

    /** Every token that is not an end token has been added. */
    ghost predicate Filled()
      reads this
    {
      Valid() && added == (set id | 0 <= id < |bytes| && id !in ends)
    }

    constructor (pieces: seq<Word>, eos: seq<int>)
      ensures trie == [Node([], [])] && bytes == pieces && ends == eos
      ensures Valid() && added == {}
    {
      trie := [Node([], [])];
      bytes := pieces;
      ends := eos;
      paths := [[]];
      added := {};
    }

    /** The rest of the constructor: it throws on a piece that is too long. */
    method AddAll() returns (r: Result<(), ConstraintError>)
      requires Valid() && added == {}
      modifies this
      ensures bytes == old(bytes) && ends == old(ends)
      ensures r.Success? ==> Filled()
      ensures r.Failure? ==> r.error == PieceTooLong && exists id | 0 <= id < |bytes| ::
                id !in ends && |bytes[id]| > MAX_PIECE
    {
      var i := 0;
      while i < |bytes|
        invariant 0 <= i <= |bytes|
        invariant Valid() && bytes == old(bytes) && ends == old(ends)
        invariant added == set id | 0 <= id < i && id !in ends
      {
        if i !in ends {
          var _ :- Add(i);
        }
        i := i + 1;
      }
      return Success(());
    }

    method Add(id: int) returns (r: Result<(), ConstraintError>)
      requires Valid() && 0 <= id < |bytes|
      modifies this
      ensures Valid() && bytes == old(bytes) && ends == old(ends)
      ensures if |bytes[id]| > MAX_PIECE
              then r == Failure(PieceTooLong) && trie == old(trie) && added == old(added)
              else r == Success(()) && added == old(added) + {id}
    {
      if |bytes[id]| > MAX_PIECE {
        return Failure(PieceTooLong);
      }
      if bytes[id] == [] {
        added := added + {id};
        return Success(());
      }
      var w := bytes[id];
      var node: nat := 0;
      var k := 0;
      while k < |w|
        invariant 0 <= k <= |w|
        invariant Valid() && bytes == old(bytes) && ends == old(ends) && added == old(added)
        invariant node < |trie| && paths[node] == w[..k]
      {
        var c := w[k];
        assert w[..k + 1] == w[..k] + [c];
        FindEdgeSound(trie[node].edges, c);
        match FindEdge(trie[node].edges, c) {
          case Some(next) =>
            assert NodeIsTree(trie, paths, node);
            node := next;
          case None =>
            ghost var before, beforePaths := trie, paths;
            var next := |trie|;
            trie := trie[node := trie[node].(edges := trie[node].edges + [(c, next)])] + [Node([], [])];
            paths := paths + [paths[node] + [c]];
            ChildAdded(before, beforePaths, bytes, added, node, c, trie, paths);
            node := next;
        }
        k := k + 1;
      }
      assert w[..|w|] == w;
      ghost var before := trie;
      trie := trie[node := trie[node].(ids := trie[node].ids + [id])];
      added := added + {id};
      IdAdded(before, paths, bytes, old(added), node, id, trie);
      return Success(());
    }
  }
}
