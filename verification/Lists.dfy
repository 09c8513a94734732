/** The intrusive circular doubly linked list of list.h on the heap.

    A list is its head and the sequence of its entries; following next from the head visits the
    entries in order and returns.  Each operation is proved to do to these sequences what its
    name says, and to touch only the nodes in its modifies clause, so every other list stays. */
module Lists {

  import opened Sequences

  /** struct list_head.  LIST_POISON1 and LIST_POISON2 are null here. */
  class ListHead {
    var next: ListHead?
    var prev: ListHead?

    constructor ()
      ensures next == null && prev == null
    {
      next, prev := null, null;
    }
  }

  type Nodes = seq<ListHead>

  /** The walk around a list, from the head back to the head. */
  ghost function Walk(head: ListHead, es: Nodes): Nodes { [head] + es + [head] }

  /** The k-th step of a walk can be taken forwards and backwards. */
  ghost predicate Linked(c: Nodes, k: nat)
    requires k + 1 < |c|
    reads c
  {
    c[k].next == c[k + 1] && c[k + 1].prev == c[k]
  }

  ghost predicate Chain(c: Nodes)
    reads c
  {
    forall k: nat :: k + 1 < |c| ==> Linked(c, k)
  }

  /** next and prev are inverse all around the list, which has no node twice. */
  ghost predicate IsList(head: ListHead, es: Nodes)
    reads Walk(head, es)
  {
    Distinct([head] + es) && Chain(Walk(head, es))
  }

  /** es without its i-th entry. */
  ghost function Cut(es: Nodes, i: nat): Nodes
    requires i < |es|
  {
    es[..i] + es[i + 1..]
  }

  lemma DistinctInsert(q: Nodes, i: nat, x: ListHead)
    requires Distinct(q) && i <= |q| && x !in q
    ensures Distinct(q[..i] + [x] + q[i..])
  {
    var r := q[..i] + [x] + q[i..];
    forall a, b | 0 <= a < b < |r|
      ensures r[a] != r[b]
    {
      assert r[a] == if a < i then q[a] else if a == i then x else q[a - 1];
      assert r[b] == if b < i then q[b] else if b == i then x else q[b - 1];
    }
  }

  lemma DistinctCut(q: Nodes, i: nat)
    requires Distinct(q) && i < |q|
    ensures Distinct(Cut(q, i)) && q[i] !in Cut(q, i)
  {
    var r := Cut(q, i);
    forall a | 0 <= a < |r|
      ensures r[a] == q[if a < i then a else a + 1]
    {
    }
  }

  /** On a walk the head alone comes twice, first and last. */
  lemma WalkDistinct(head: ListHead, es: Nodes)
    requires Distinct([head] + es)
    ensures var c := Walk(head, es);
      && (forall j, k :: 0 <= j < k < |c| - 1 ==> c[j] != c[k])
      && (forall j, k :: 1 <= j < k < |c| ==> c[j] != c[k])
  {
    var c, q := Walk(head, es), [head] + es;
    forall j, k | 1 <= j < k < |c|
      ensures c[j] != c[k]
    {
      assert c[j] == q[j] && c[k] == if k < |q| then q[k] else q[0];
    }
  }

  lemma HeadApart(head: ListHead, es: Nodes)
    requires Distinct([head] + es)
    ensures head !in es && Distinct(es)
  {
    DistinctCut([head] + es, 0);
    assert Cut([head] + es, 0) == es;
  }

  /** The neighbours of the i-th entry are the nodes before and after it on the walk. */
  lemma Neighbours(head: ListHead, es: Nodes, i: nat)
    requires IsList(head, es) && i < |es|
    ensures es[i].prev == (if i == 0 then head else es[i - 1])
    ensures es[i].next == (if i + 1 == |es| then head else es[i + 1])
  {
    var c := Walk(head, es);
    assert Linked(c, i) && Linked(c, i + 1);
  }

  /** What the head's own links say. */
  lemma Ends(head: ListHead, es: Nodes)
    requires IsList(head, es)
    ensures head.next == (if es == [] then head else es[0])
    ensures head.prev == (if es == [] then head else es[|es| - 1])
  {
    var c := Walk(head, es);
    assert Linked(c, 0) && Linked(c, |es|);
  }

  // ---------------------------------------------------------------- adding

  /** INIT_LIST_HEAD */
  method InitListHead(list: ListHead)
    modifies list
    ensures IsList(list, [])
  {
    list.next := list;
    list.prev := list;
  }

  /** __list_add, between the i-th node of the walk and the next one. */
  method AddBetween(node: ListHead, prev: ListHead, next: ListHead, ghost head: ListHead, ghost es: Nodes, ghost i: nat)
    requires IsList(head, es) && node !in [head] + es && i <= |es|
    requires Walk(head, es)[i] == prev && Walk(head, es)[i + 1] == next
    modifies node, prev, next
    ensures IsList(head, es[..i] + [node] + es[i..])
  {
    WalkDistinct(head, es);
    DistinctInsert([head] + es, i + 1, node);
    assert ([head] + es)[..i + 1] + [node] + ([head] + es)[i + 1..] == [head] + (es[..i] + [node] + es[i..]);
    next.prev := node;
    node.next := next;
    node.prev := prev;
    prev.next := node;
    ghost var c, d := Walk(head, es), Walk(head, es[..i] + [node] + es[i..]);
    forall k: nat | k + 1 < |d|
      ensures Linked(d, k)
    {
      if k < i { assert old(Linked(c, k)); } else if k > i + 1 { assert old(Linked(c, k - 1)); }
    }
  }

  /** list_add: right after the head. */
  method ListAdd(node: ListHead, head: ListHead, ghost es: Nodes)
    requires IsList(head, es) && node !in [head] + es
    modifies node, head, Walk(head, es)[1]
    ensures IsList(head, [node] + es)
  {
    Ends(head, es);
    AddBetween(node, head, head.next, head, es, 0);
    assert es[..0] + [node] + es[0..] == [node] + es;
  }

  /** list_add_tail: right before the head. */
  method ListAddTail(node: ListHead, head: ListHead, ghost es: Nodes)
    requires IsList(head, es) && node !in [head] + es
    modifies node, head, Walk(head, es)[|es|]
    ensures IsList(head, es + [node])
  {
    Ends(head, es);
    AddBetween(node, head.prev, head, head, es, |es|);
    assert es[..|es|] + [node] + es[|es|..] == es + [node];
  }

  // ---------------------------------------------------------------- removing

  lemma CutList(head: ListHead, es: Nodes, i: nat)
    requires Distinct([head] + es) && i < |es|
    ensures Distinct([head] + Cut(es, i)) && es[i] !in [head] + Cut(es, i)
  {
    DistinctCut([head] + es, i + 1);
    assert Cut([head] + es, i + 1) == [head] + Cut(es, i);
  }

  /** __list_del_entry: the neighbours are joined, the entry keeps its links. */
  method DelEntry(entry: ListHead, ghost head: ListHead, ghost es: Nodes, ghost i: nat)
    requires IsList(head, es) && i < |es| && es[i] == entry
    modifies Walk(head, es)[i], Walk(head, es)[i + 2]
    ensures IsList(head, Cut(es, i))
    ensures entry.next == old(entry.next) && entry.prev == old(entry.prev)
  {
    Neighbours(head, es, i);
    WalkDistinct(head, es);
    CutList(head, es, i);
    var prev, next := entry.prev, entry.next;
    next.prev := prev;
    prev.next := next;
    ghost var c, d := Walk(head, es), Walk(head, Cut(es, i));
    forall k: nat | k + 1 < |d|
      ensures Linked(d, k)
    {
      if k < i { assert old(Linked(c, k)); } else if k > i { assert old(Linked(c, k + 1)); }
    }
  }

  /** list_del: the entry's links are poisoned. */
  method ListDel(entry: ListHead, ghost head: ListHead, ghost es: Nodes, ghost i: nat)
    requires IsList(head, es) && i < |es| && es[i] == entry
    modifies entry, Walk(head, es)[i], Walk(head, es)[i + 2]
    ensures IsList(head, Cut(es, i))
    ensures entry.next == null && entry.prev == null
  {
    CutList(head, es, i);
    DelEntry(entry, head, es, i);
    entry.next := null;
    entry.prev := null;
  }

  /** list_del_init */
  method ListDelInit(entry: ListHead, ghost head: ListHead, ghost es: Nodes, ghost i: nat)
    requires IsList(head, es) && i < |es| && es[i] == entry
    modifies entry, Walk(head, es)[i], Walk(head, es)[i + 2]
    ensures IsList(head, Cut(es, i)) && IsList(entry, [])
  {
    CutList(head, es, i);
    DelEntry(entry, head, es, i);
    InitListHead(entry);
  }

  // ---------------------------------------------------------------- replacing

  lemma DistinctReplace(q: Nodes, i: nat, x: ListHead)
    requires Distinct(q) && i < |q| && x !in q
    ensures Distinct(q[i := x])
  {
  }

  /** list_replace: the new node takes the place of `gone`, the i-th of the head and the entries.
      A head without entries points to itself: there the second store changes the link the
      third one reads, and the new node ends up pointing to itself, an empty head too. */
  method ListReplace(gone: ListHead, node: ListHead, ghost q: Nodes, ghost i: nat)
    requires q != [] && IsList(q[0], q[1..]) && i < |q| && q[i] == gone && node !in q
    modifies node, Walk(q[0], q[1..])[i + 1], if i == 0 then q[|q| - 1] else q[i - 1]
    ensures var r := q[i := node]; IsList(r[0], r[1..])
    ensures |q| > 1 ==> gone.next == old(gone.next) && gone.prev == old(gone.prev)
  {
    var head, es := q[0], q[1..];
    assert q == [head] + es;
    ghost var c := Walk(head, es);
    Ends(head, es);
    if i > 0 { Neighbours(head, es, i - 1); }
    WalkDistinct(head, es);
    DistinctReplace(q, i, node);
    ghost var r := q[i := node];
    assert r == [r[0]] + r[1..];
    node.next := gone.next;
    node.next.prev := node;
    node.prev := gone.prev;
    node.prev.next := node;
    ghost var d := Walk(r[0], r[1..]);
    forall k: nat | k + 1 < |d|
      ensures Linked(d, k)
    {
      assert old(Linked(c, k));
    }
  }

  /** list_replace_init, of an entry or of a head: what was replaced is left an empty list. */
  method ListReplaceInit(gone: ListHead, node: ListHead, ghost q: Nodes, ghost i: nat)
    requires q != [] && IsList(q[0], q[1..]) && i < |q| && q[i] == gone && node !in q
    modifies gone, node, Walk(q[0], q[1..])[i + 1], if i == 0 then q[|q| - 1] else q[i - 1]
    ensures var r := q[i := node]; IsList(r[0], r[1..])
    ensures IsList(gone, [])
  {
    ListReplace(gone, node, q, i);
    GoneApart(q, i, node);
    InitListHead(gone);
  }

  lemma GoneApart(q: Nodes, i: nat, node: ListHead)
    requires q != [] && Distinct([q[0]] + q[1..]) && i < |q| && node !in q
    ensures var r := q[i := node]; q[i] !in Walk(r[0], r[1..])
  {
    assert q == [q[0]] + q[1..];
    var r := q[i := node];
    forall n | n in Walk(r[0], r[1..])
      ensures n in r
    {
    }
    assert q[i] !in r;
  }

  // ---------------------------------------------------------------- moving

  /** Two lists with no node in common. */
  ghost predicate Apart(head: ListHead, es: Nodes, other: ListHead, fs: Nodes) {
    forall n :: n in [head] + es ==> n !in [other] + fs
  }

  lemma ApartWalks(head: ListHead, es: Nodes, other: ListHead, fs: Nodes)
    requires Apart(head, es, other, fs)
    ensures forall n :: n in Walk(head, es) ==> n !in Walk(other, fs)
  {
    forall n | n in Walk(head, es)
      ensures n in [head] + es
    {
    }
    forall n | n in Walk(other, fs)
      ensures n in [other] + fs
    {
    }
  }

  /** Cutting an entry out of one list leaves a list apart from it alone. */
  method DelApart(list: ListHead, head: ListHead, ghost from: ListHead, ghost es: Nodes, ghost i: nat, ghost fs: Nodes)
    requires IsList(from, es) && i < |es| && es[i] == list && IsList(head, fs)
    requires (from == head && es == fs) || Apart(from, es, head, fs)
    modifies Walk(from, es)[i], Walk(from, es)[i + 2]
    ensures IsList(from, Cut(es, i)) && list !in [from] + Cut(es, i)
    ensures from != head ==> IsList(head, fs) && list !in [head] + fs
  {
    CutList(from, es, i);
    ghost var c := Walk(from, es);
    assert c[i] in c && c[i + 2] in c && c[i + 1] == list && c[i + 1] in c;
    if from != head { ApartWalks(from, es, head, fs); }
    DelEntry(list, from, es, i);
  }

  /** list_move_tail: from its list to the end of the list of head, which may be the same one; the
      entry may already be last. */
  method ListMoveTail(list: ListHead, head: ListHead, ghost from: ListHead, ghost es: Nodes, ghost i: nat, ghost fs: Nodes)
    requires IsList(from, es) && i < |es| && es[i] == list && IsList(head, fs)
    requires (from == head && es == fs) || Apart(from, es, head, fs)
    modifies list, Walk(from, es)[i], Walk(from, es)[i + 2], head, Walk(head, fs)[|fs|]
    ensures from == head ==> IsList(head, Cut(es, i) + [list])
    ensures from != head ==> IsList(from, Cut(es, i)) && IsList(head, fs + [list])
  {
    assert from == head ==> es == fs by {
      assert from in [from] + es && head in [head] + fs;
    }
    DelApart(list, head, from, es, i, fs);
    ghost var gs := if from == head then Cut(es, i) else fs;
    assert from == head ==> Walk(head, gs)[|gs|] == (if i + 1 == |es| then Walk(from, es)[i] else Walk(from, es)[|es|]);
    if from != head {
      ApartWalks(from, es, head, fs);
      CutWalk(from, es, i);
      assert head in Walk(head, fs) && Walk(head, fs)[|fs|] in Walk(head, fs);
    }
    ListAddTail(list, head, gs);
  }

  /** list_move: to the front of the list of head. */
  method ListMove(list: ListHead, head: ListHead, ghost from: ListHead, ghost es: Nodes, ghost i: nat, ghost fs: Nodes)
    requires IsList(from, es) && i < |es| && es[i] == list && IsList(head, fs)
    requires (from == head && es == fs) || Apart(from, es, head, fs)
    modifies list, Walk(from, es)[i], Walk(from, es)[i + 2], head, Walk(head, fs)[1]
    ensures from == head ==> IsList(head, [list] + Cut(es, i))
    ensures from != head ==> IsList(from, Cut(es, i)) && IsList(head, [list] + fs)
  {
    assert from == head ==> es == fs by {
      assert from in [from] + es && head in [head] + fs;
    }
    DelApart(list, head, from, es, i, fs);
    ghost var gs := if from == head then Cut(es, i) else fs;
    assert from == head ==> Walk(head, gs)[1] == (if i == 0 then Walk(from, es)[i + 2] else Walk(from, es)[1]);
    if from != head {
      ApartWalks(from, es, head, fs);
      CutWalk(from, es, i);
      assert head in Walk(head, fs) && Walk(head, fs)[1] in Walk(head, fs);
    }
    ListAdd(list, head, gs);
  }

  lemma CutWalk(head: ListHead, es: Nodes, i: nat)
    requires i < |es|
    ensures forall n :: n in Walk(head, Cut(es, i)) ==> n in Walk(head, es)
  {
  }

  // ---------------------------------------------------------------- looking

  /** list_empty */
  predicate ListEmpty(head: ListHead)
    reads head
  {
    head.next == head
  }

  /** list_is_last */
  predicate ListIsLast(list: ListHead, head: ListHead)
    reads list
  {
    list.next == head
  }

  /** list_is_singular */
  predicate ListIsSingular(head: ListHead)
    reads head
  {
    !ListEmpty(head) && head.next == head.prev
  }

  /** list_empty_careful */
  predicate ListEmptyCareful(head: ListHead)
    reads head
  {
    head.next == head && head.next == head.prev
  }

  /** The predicates read off the links what they are named after; while nobody modifies the list the
      careful test of emptiness is the plain one. */
  lemma Looks(head: ListHead, es: Nodes)
    requires IsList(head, es)
    ensures (ListEmpty(head) <==> es == []) && (ListEmptyCareful(head) <==> es == [])
    ensures ListIsSingular(head) <==> |es| == 1
    ensures forall i :: 0 <= i < |es| ==> (ListIsLast(es[i], head) <==> i == |es| - 1)
  {
    Ends(head, es);
    HeadApart(head, es);
    forall i | 0 <= i < |es|
      ensures ListIsLast(es[i], head) <==> i == |es| - 1
    {
      Neighbours(head, es, i);
    }
  }

  /** list_rotate_left */
  method ListRotateLeft(head: ListHead, ghost es: Nodes)
    requires IsList(head, es)
    modifies head, es
    ensures IsList(head, if es == [] then [] else es[1..] + [es[0]])
  {
    Looks(head, es);
    if !ListEmpty(head) {
      Ends(head, es);
      ListMoveTail(head.next, head, head, es, 0, es);
      assert Cut(es, 0) == es[1..];
    }
  }

  // ---------------------------------------------------------------- splicing

  lemma DistinctConcat(a: Nodes, b: Nodes, c: Nodes)
    requires Distinct(a + c) && Distinct(b) && (forall n :: n in b ==> n !in a + c)
    ensures Distinct(a + b + c)
  {
    var r := a + b + c;
    forall j, k | 0 <= j < k < |r|
      ensures r[j] != r[k]
    {
      ghost var q := a + c;
      var inB := (x: int) => |a| <= x < |a| + |b|;
      var at := (x: int) => if x < |a| then x else x - |b|;
      assert if inB(j) then r[j] == b[j - |a|] && r[j] in b else r[j] == q[at(j)] && r[j] in q;
      assert if inB(k) then r[k] == b[k - |a|] && r[k] in b else r[k] == q[at(k)] && r[k] in q;
    }
  }

  /** The walk around the joined list, from the two walks. */
  lemma SpliceWalk(list: ListHead, ls: Nodes, head: ListHead, es: Nodes, k: nat)
    requires k <= |es|
    ensures Walk(head, es[..k] + ls + es[k..]) ==
            Walk(head, es)[..k + 1] + Walk(list, ls)[1..|ls| + 1] + Walk(head, es)[k + 1..]
  {
    assert Walk(list, ls)[1..|ls| + 1] == ls;
    assert Walk(head, es)[..k + 1] == [head] + es[..k];
    assert Walk(head, es)[k + 1..] == es[k..] + [head];
  }

  lemma SpliceDistinct(list: ListHead, ls: Nodes, head: ListHead, es: Nodes, k: nat)
    requires Distinct([list] + ls) && Distinct([head] + es) && Apart(list, ls, head, es) && k <= |es|
    ensures Distinct([head] + (es[..k] + ls + es[k..]))
  {
    var q := [head] + es;
    assert q[..k + 1] + q[k + 1..] == q;
    assert [head] + (es[..k] + ls + es[k..]) == q[..k + 1] + ls + q[k + 1..];
    assert forall n :: n in ls ==> n in [list] + ls;
    assert Distinct(ls) by {
      assert forall j :: 0 <= j < |ls| ==> ls[j] == ([list] + ls)[j + 1];
    }
    DistinctConcat(q[..k + 1], ls, q[k + 1..]);
  }

  /** __list_splice of the entries ls after the k-th node of the walk; the head `list` keeps its
      links and is no longer a list. */
  method SpliceBetween(list: ListHead, prev: ListHead, next: ListHead,
                       ghost ls: Nodes, ghost head: ListHead, ghost es: Nodes, ghost k: nat)
    requires IsList(list, ls) && ls != [] && IsList(head, es) && Apart(list, ls, head, es) && k <= |es|
    requires Walk(head, es)[k] == prev && Walk(head, es)[k + 1] == next
    modifies ls[0], ls[|ls| - 1], prev, next
    ensures IsList(head, es[..k] + ls + es[k..])
    ensures list.next == old(list.next) && list.prev == old(list.prev)
  {
    Ends(list, ls);
    WalkDistinct(list, ls);
    WalkDistinct(head, es);
    ApartWalks(list, ls, head, es);
    SpliceWalk(list, ls, head, es, k);
    SpliceDistinct(list, ls, head, es, k);
    ghost var c, d, e := Walk(head, es), Walk(list, ls), Walk(head, es[..k] + ls + es[k..]);
    assert d[0] == list && d[1] == ls[0] && d[|ls|] == ls[|ls| - 1];
    hide Distinct, Chain, Walk, Apart;
    SpliceStores(list, prev, next, c, d, e, k, |ls|);
  }

  /** Where the nodes of two joined walks stand. */
  lemma SpliceAt(c: Nodes, d: Nodes, e: Nodes, k: nat, m: nat)
    requires k + 1 < |c| && |d| == m + 2 && e == c[..k + 1] + d[1..m + 1] + c[k + 1..]
    ensures |e| == |c| + m
    ensures forall x :: 0 <= x <= k ==> e[x] == c[x]
    ensures forall x :: k < x <= k + m ==> e[x] == d[x - k]
    ensures forall x :: k + m < x < |e| ==> e[x] == c[x - m]
  {
    var front, middle := c[..k + 1], d[1..m + 1];
    forall x | k < x <= k + m
      ensures e[x] == d[x - k]
    {
      assert e[x] == middle[x - (k + 1)];
    }
    forall x | k + m < x < |e|
      ensures e[x] == c[x - m]
    {
      assert e[x] == c[k + 1..][x - (k + 1 + m)];
    }
  }

  /** The four stores of __list_splice, on walks. */
  method SpliceStores(list: ListHead, prev: ListHead, next: ListHead,
                      ghost c: Nodes, ghost d: Nodes, ghost e: Nodes, ghost k: nat, ghost m: nat)
    requires Chain(c) && Chain(d) && k + 1 < |c| && |d| == m + 2 && m > 0
    requires c[k] == prev && c[k + 1] == next && d[0] == list
    requires list.next == d[1] && list.prev == d[m]
    requires (forall i, j :: 0 <= i < j < |c| - 1 ==> c[i] != c[j]) && (forall i, j :: 1 <= i < j < |c| ==> c[i] != c[j])
    requires (forall i, j :: 0 <= i < j < |d| - 1 ==> d[i] != d[j]) && (forall n :: n in c ==> n !in d)
    requires e == c[..k + 1] + d[1..m + 1] + c[k + 1..]
    modifies d[1], d[m], prev, next
    ensures Chain(e)
    ensures list.next == old(list.next) && list.prev == old(list.prev)
  {
    SpliceAt(c, d, e, k, m);
    assert forall x :: 0 <= x < |c| ==> c[x] in c && c[x] !in d;
    assert list in d && d[1] in d && d[m] in d;
    var first, last := list.next, list.prev;
    first.prev := prev;
    prev.next := first;
    last.next := next;
    next.prev := last;
    assert prev.next == first && first.prev == prev && last.next == next && next.prev == last;
    forall x: nat | x + 1 < |e|
      ensures Linked(e, x)
    {
      if x < k {
        assert old(Linked(c, x)) && e[x] == c[x] && e[x + 1] == c[x + 1];
        assert c[x] != c[k] && c[x + 1] != c[k + 1];
      } else if x == k {
        assert e[x] == prev && e[x + 1] == first;
      } else if x < k + m {
        assert old(Linked(d, x - k)) && e[x] == d[x - k] && e[x + 1] == d[x - k + 1];
        assert d[x - k] != d[m] && d[x - k + 1] != d[1];
        assert d[x - k] in d && d[x - k + 1] in d;
      } else if x == k + m {
        assert e[x] == last && e[x + 1] == next;
      } else {
        assert old(Linked(c, x - m)) && e[x] == c[x - m] && e[x + 1] == c[x - m + 1];
        assert c[x - m] != c[k] && c[x - m + 1] != c[k + 1];
      }
    }
  }

  /** list_splice: ahead of the entries of head. */
  method ListSplice(list: ListHead, head: ListHead, ghost ls: Nodes, ghost es: Nodes)
    requires IsList(list, ls) && IsList(head, es) && Apart(list, ls, head, es)
    modifies if ls == [] then {} else {ls[0], ls[|ls| - 1], head, Walk(head, es)[1]}
    ensures IsList(head, ls + es)
    ensures list.next == old(list.next) && list.prev == old(list.prev)
  {
    Looks(list, ls);
    assert es[..0] + ls + es[0..] == ls + es;
    if ListEmpty(list) {
      assert ls + es == es;
    } else {
      Ends(head, es);
      SpliceBetween(list, head, head.next, ls, head, es, 0);
    }
  }

  /** list_splice_tail: behind them. */
  method ListSpliceTail(list: ListHead, head: ListHead, ghost ls: Nodes, ghost es: Nodes)
    requires IsList(list, ls) && IsList(head, es) && Apart(list, ls, head, es)
    modifies if ls == [] then {} else {ls[0], ls[|ls| - 1], head, Walk(head, es)[|es|]}
    ensures IsList(head, es + ls)
    ensures list.next == old(list.next) && list.prev == old(list.prev)
  {
    Looks(list, ls);
    assert es[..|es|] + ls + es[|es|..] == es + ls;
    if ListEmpty(list) {
      assert es + ls == es;
    } else {
      Ends(head, es);
      SpliceBetween(list, head.prev, head, ls, head, es, |es|);
    }
  }

  /** list_splice_init */
  method ListSpliceInit(list: ListHead, head: ListHead, ghost ls: Nodes, ghost es: Nodes)
    requires IsList(list, ls) && IsList(head, es) && Apart(list, ls, head, es)
    modifies list, if ls == [] then {} else {ls[0], ls[|ls| - 1], head, Walk(head, es)[1]}
    ensures IsList(head, ls + es) && IsList(list, [])
  {
    Looks(list, ls);
    if ListEmpty(list) {
      assert ls + es == es;
    } else {
      JoinedApart(list, ls, head, es);
      ListSplice(list, head, ls, es);
      InitListHead(list);
    }
  }

  /** list_splice_tail_init */
  method ListSpliceTailInit(list: ListHead, head: ListHead, ghost ls: Nodes, ghost es: Nodes)
    requires IsList(list, ls) && IsList(head, es) && Apart(list, ls, head, es)
    modifies list, if ls == [] then {} else {ls[0], ls[|ls| - 1], head, Walk(head, es)[|es|]}
    ensures IsList(head, es + ls) && IsList(list, [])
  {
    Looks(list, ls);
    if ListEmpty(list) {
      assert es + ls == es;
    } else {
      JoinedApart(list, ls, head, es);
      ListSpliceTail(list, head, ls, es);
      InitListHead(list);
    }
  }

  lemma JoinedApart(list: ListHead, ls: Nodes, head: ListHead, es: Nodes)
    requires Distinct([list] + ls) && Apart(list, ls, head, es)
    ensures list !in Walk(head, ls + es) && list !in Walk(head, es + ls)
  {
    assert list in [list] + ls;
    DistinctCut([list] + ls, 0);
    assert Cut([list] + ls, 0) == ls;
    assert head in [head] + es && (forall n :: n in es ==> n in [head] + es);
  }

  // ---------------------------------------------------------------- cutting

  /** list_cut_position: the entries up to and including the i-th move from head to `list`, whose
      old links do not matter.  If the entry is the head itself nothing is cut and `list` becomes
      empty, unless head is empty: then the function returns before touching `list`.  An entry
      of some other list is only noticed when head has exactly one entry. */
  method ListCutPosition(list: ListHead, head: ListHead, entry: ListHead, ghost es: Nodes, ghost i: nat)
    requires IsList(head, es) && list !in [head] + es
    requires entry == head || (i < |es| && es[i] == entry) || (|es| <= 1 && entry !in [head] + es)
    modifies list, head, es
    ensures es == [] || entry !in [head] + es ==>
              IsList(head, es) && list.next == old(list.next) && list.prev == old(list.prev)
    ensures es != [] && entry == head ==> IsList(list, []) && IsList(head, es)
    ensures i < |es| && es[i] == entry ==> IsList(list, es[..i + 1]) && IsList(head, es[i + 1..])
  {
    Looks(head, es);
    Ends(head, es);
    assert head in [head] + es && (forall n :: n in es ==> n in [head] + es);
    HeadApart(head, es);
    if ListEmpty(head) {
      return;
    }
    if ListIsSingular(head) && (head.next != entry && head != entry) {
      return;
    }
    if entry == head {
      assert list !in Walk(head, es);
      InitListHead(list);
    } else {
      CutHere(list, head, entry, es, i);
    }
  }

  /** __list_cut_position */
  method CutHere(list: ListHead, head: ListHead, entry: ListHead, ghost es: Nodes, ghost i: nat)
    requires IsList(head, es) && list !in [head] + es && i < |es| && es[i] == entry
    modifies list, head, es
    ensures IsList(list, es[..i + 1]) && IsList(head, es[i + 1..])
  {
    Ends(head, es);
    Neighbours(head, es, i);
    WalkDistinct(head, es);
    CutDistinct(list, head, es, i);
    ghost var c := Walk(head, es);
    assert c[1] == es[0] && c[i + 1] == entry && c[i + 2] == (if i + 1 < |es| then es[i + 1] else head);
    assert c[i + 2] != c[1] && c[i + 2] != c[i + 1];
    assert es[0] in es && entry in es && head !in es by { HeadApart(head, es); }
    var newFirst := entry.next;
    list.next := head.next;
    list.next.prev := list;
    list.prev := entry;
    entry.next := list;
    head.next := newFirst;
    newFirst.prev := head;
    assert list.next == es[0] && es[0].prev == list && entry.next == list && list.prev == entry;
    assert head.next == c[i + 2] && c[i + 2].prev == head;
    ghost var d, e := Walk(list, es[..i + 1]), Walk(head, es[i + 1..]);
    forall k: nat | k + 1 < |d|
      ensures Linked(d, k)
    {
      if k == 0 {
        assert d[0] == list && d[1] == es[0];
      } else if k == i + 1 {
        assert d[k] == entry && d[k + 1] == list;
      } else {
        assert old(Linked(c, k)) && d[k] == c[k] && d[k + 1] == c[k + 1];
        assert c[k] != c[i + 1] && c[k + 1] != c[1] && c[k + 1] != c[i + 2] && c[k] != c[0];
        assert c[k] == es[k - 1] && c[k + 1] == es[k];
      }
    }
    forall k: nat | k + 1 < |e|
      ensures Linked(e, k)
    {
      if k == 0 {
        assert e[0] == head && e[1] == c[i + 2];
      } else {
        assert old(Linked(c, i + 1 + k)) && e[k] == c[i + 1 + k] && e[k + 1] == c[i + 2 + k];
        assert c[i + 1 + k] != c[i + 1] && c[i + 1 + k] != c[0] && c[i + 2 + k] != c[1] && c[i + 2 + k] != c[i + 2];
        assert c[i + 1 + k] == es[i + k] && (c[i + 2 + k] in es || c[i + 2 + k] == head);
      }
    }
  }

  lemma CutDistinct(list: ListHead, head: ListHead, es: Nodes, i: nat)
    requires Distinct([head] + es) && list !in [head] + es && i < |es|
    ensures Distinct([list] + es[..i + 1]) && Distinct([head] + es[i + 1..]) && list !in es
  {
    var q, r := [head] + es, [head] + es[i + 1..];
    forall j | 0 <= j < |es|
      ensures es[j] == q[j + 1] && es[j] in q
    {
    }
    forall j, k | 0 <= j < k < |r|
      ensures r[j] != r[k]
    {
      assert r[j] == (if j == 0 then q[0] else q[i + 1 + j]) && r[k] == q[i + 1 + k];
    }
  }

  /** Cutting into an empty list and splicing back restores the list, wherever the cut was. */
  method CutAndSplice(list: ListHead, head: ListHead, entry: ListHead, ghost es: Nodes, ghost i: nat)
    requires IsList(head, es) && IsList(list, []) && list !in [head] + es
    requires entry == head || (i < |es| && es[i] == entry)
    modifies list, head, es
    ensures IsList(head, es)
  {
    HeadApart(head, es);
    assert head in [head] + es && (forall n :: n in es ==> n in [head] + es);
    Ends(list, []);
    ListCutPosition(list, head, entry, es, i);
    if entry == head {
      assert IsList(list, []) by {
        assert Linked(Walk(list, []), 0);
      }
      ListSplice(list, head, [], es);
      assert [] + es == es;
    } else {
      assert es[..i + 1] + es[i + 1..] == es;
      PartsApart(list, head, es, i);
      ListSplice(list, head, es[..i + 1], es[i + 1..]);
    }
  }

  lemma PartsApart(list: ListHead, head: ListHead, es: Nodes, i: nat)
    requires Distinct([head] + es) && list !in [head] + es && i < |es|
    ensures Apart(list, es[..i + 1], head, es[i + 1..])
  {
    var q, a, b := [head] + es, [list] + es[..i + 1], [head] + es[i + 1..];
    forall j, k | 0 <= j < |a| && 0 <= k < |b|
      ensures a[j] != b[k]
    {
      assert b[k] == q[if k == 0 then 0 else i + 1 + k];
      assert j > 0 ==> a[j] == q[j];
    }
  }

  // ---------------------------------------------------------------- iterating while removing

  /** One turn of stk_llc_resend_clear_all: the first entry of one list goes behind the other. */
  method MoveFirst(child: ListHead, resend: ListHead, pool: ListHead, ghost rest: Nodes, ghost done: Nodes)
    requires rest != [] && rest[0] == child
    requires IsList(resend, rest) && IsList(pool, done) && Apart(resend, rest, pool, done)
    modifies resend, pool, rest, done
    ensures IsList(resend, rest[1..]) && IsList(pool, done + [child])
    ensures Apart(resend, rest[1..], pool, done + [child])
  {
    assert resend in [resend] + rest && pool in [pool] + done && child in [resend] + rest;
    assert (forall n :: n in rest ==> n in [resend] + rest) && (forall n :: n in done ==> n in [pool] + done);
    assert Cut(rest, 0) == rest[1..];
    CutList(resend, rest, 0);
    ListMoveTail(child, pool, resend, rest, 0, done);
  }

  /** stk_llc_resend_clear_all on the links: list_for_each_entry_safe moves every entry to the end of
      the pool, each once and in order, and the loop leaves the resend list empty by itself. */
  method ClearAll(resend: ListHead, pool: ListHead, ghost es: Nodes, ghost fs: Nodes) returns (moved: nat)
    requires IsList(resend, es) && IsList(pool, fs) && Apart(resend, es, pool, fs)
    modifies resend, pool, es, fs
    ensures IsList(pool, fs + es) && IsList(resend, []) && moved == |es|
  {
    ghost var rest: Nodes := es;
    ghost var done: Nodes := fs;
    FirstLinks(resend, es);
    var child := resend.next;
    var next := child.next;
    moved := 0;
    while child != resend
      invariant moved <= |es| && rest == es[moved..] && done == fs + es[..moved]
      invariant IsList(resend, rest) && IsList(pool, done) && Apart(resend, rest, pool, done)
      invariant child == (if rest == [] then resend else rest[0])
      invariant next == (if |rest| <= 1 then resend else rest[1])
      decreases |rest|
    {
      hide IsList, Apart;
      MoveFirst(child, resend, pool, rest, done);
      rest, done := rest[1..], done + [child];
      assert done == fs + es[..moved + 1];
      moved := moved + 1;
      FirstLinks(resend, rest);
      child := next;
      next := next.next;
    }
    FirstLinks(resend, rest);
    hide IsList, Apart;
    Reinitialise(resend, pool, done);
    assert done == fs + es;
  }

  /** The INIT_LIST_HEAD after the loop changes nothing. */
  method Reinitialise(resend: ListHead, pool: ListHead, ghost done: Nodes)
    requires IsList(pool, done) && Apart(resend, [], pool, done)
    modifies resend
    ensures IsList(pool, done) && IsList(resend, [])
  {
    ApartWalks(resend, [], pool, done);
    assert resend in Walk(resend, []);
    InitListHead(resend);
  }

  lemma FirstLinks(head: ListHead, es: Nodes)
    requires IsList(head, es)
    ensures head.next == (if es == [] then head else es[0])
    ensures es != [] ==> es[0].next == (if |es| == 1 then head else es[1]) && es[0] != head
  {
    Ends(head, es);
    HeadApart(head, es);
    if es != [] { Neighbours(head, es, 0); }
  }
}
