/** The background page's flattening of the browser bookmark tree
    (extractBookmarksFromTree in src/js/background.js): every bookmark is
    tagged with the lower-cased title of its nearest titled folder, pushed
    into an accumulator shared by the recursive calls, and the accumulator
    is sorted newest first, in place, at the end of every call; the caller
    keeps the first 30. */
module Background {
  import opened Wrappers
  import opened Text
  import opened Records

  const Limit: nat := 30

  /** The sort key `bookmark.dateAdded || 0`. */
  function DateKey(b: Bookmark): int {
    if b.dateAdded.Some? then b.dateAdded.value else 0
  }

  // A stable sort, newest first, as Array.prototype.sort with the
  // comparator `(a, b) => (b.dateAdded || 0) - (a.dateAdded || 0)`.

  /** The records of `s` whose key is `k`, in their order in `s`. */
  function WithKey(s: seq<Bookmark>, k: int): (r: seq<Bookmark>)
    ensures |r| <= |s|
    ensures forall i :: 0 <= i < |r| ==> DateKey(r[i]) == k
  {
    if s == [] then []
    else (if DateKey(s[0]) == k then [s[0]] else []) + WithKey(s[1..], k)
  }

  /** The records of `s` whose key is not `k`, in their order in `s`. */
  function WithoutKey(s: seq<Bookmark>, k: int): (r: seq<Bookmark>)
    ensures |r| <= |s|
    ensures forall i :: 0 <= i < |r| ==> DateKey(r[i]) != k
    ensures (exists i :: 0 <= i < |s| && DateKey(s[i]) == k) ==> |r| < |s|
  {
    if s == [] then []
    else (if DateKey(s[0]) != k then [s[0]] else []) + WithoutKey(s[1..], k)
  }

  function MaxKey(s: seq<Bookmark>): (m: int)
    requires s != []
    ensures exists i :: 0 <= i < |s| && DateKey(s[i]) == m
    ensures forall i :: 0 <= i < |s| ==> DateKey(s[i]) <= m
  {
    if |s| == 1 then DateKey(s[0])
    else
      var m := MaxKey(s[1..]);
      assert forall i :: 1 <= i < |s| ==> s[i] == s[1..][i - 1];
      if DateKey(s[0]) >= m then DateKey(s[0]) else m
  }

  /** Newest first; records with equal keys keep their relative order. */
  function SortByDate(s: seq<Bookmark>): seq<Bookmark>
    decreases |s|
  {
    if s == [] then []
    else
      var m := MaxKey(s);
      WithKey(s, m) + SortByDate(WithoutKey(s, m))
  }

  predicate IsSortedByDate(s: seq<Bookmark>) {
    forall i, j :: 0 <= i < j < |s| ==> DateKey(s[i]) >= DateKey(s[j])
  }

  lemma {:induction false} SplitByKey(s: seq<Bookmark>, k: int)
    ensures multiset(WithKey(s, k)) + multiset(WithoutKey(s, k)) == multiset(s)
  {
    if s != [] {
      SplitByKey(s[1..], k);
      assert s == [s[0]] + s[1..];
    }
  }

  lemma {:induction false} WithKeyOfConcat(a: seq<Bookmark>, b: seq<Bookmark>, k: int)
    ensures WithKey(a + b, k) == WithKey(a, k) + WithKey(b, k)
  {
    if a == [] {
      assert a + b == b;
    } else {
      var first := if DateKey(a[0]) == k then [a[0]] else [];
      assert (a + b)[0] == a[0];
      assert (a + b)[1..] == a[1..] + b;
      WithKeyOfConcat(a[1..], b, k);
      calc {
        WithKey(a + b, k);
        first + WithKey(a[1..] + b, k);
        first + (WithKey(a[1..], k) + WithKey(b, k));
        (first + WithKey(a[1..], k)) + WithKey(b, k);
        WithKey(a, k) + WithKey(b, k);
      }
    }
  }

  lemma {:induction false} WithKeyOfWithKey(s: seq<Bookmark>, m: int, k: int)
    ensures WithKey(WithKey(s, m), k) == if k == m then WithKey(s, m) else []
  {
    if s != [] {
      WithKeyOfWithKey(s[1..], m, k);
      WithKeyOfConcat(if DateKey(s[0]) == m then [s[0]] else [], WithKey(s[1..], m), k);
    }
  }

  lemma {:induction false} WithKeyOfWithoutKey(s: seq<Bookmark>, m: int, k: int)
    ensures WithKey(WithoutKey(s, m), k) == if k == m then [] else WithKey(s, k)
  {
    if s != [] {
      WithKeyOfWithoutKey(s[1..], m, k);
      WithKeyOfConcat(if DateKey(s[0]) != m then [s[0]] else [], WithoutKey(s[1..], m), k);
    }
  }

  /** Some record has key `k` exactly when the class of `k` is not empty. */
  lemma {:induction false} WithKeyEmpty(s: seq<Bookmark>, k: int)
    ensures WithKey(s, k) == [] <==> forall i :: 0 <= i < |s| ==> DateKey(s[i]) != k
  {
    if s != [] {
      WithKeyEmpty(s[1..], k);
      assert forall i :: 1 <= i < |s| ==> s[i] == s[1..][i - 1];
    }
  }

  /** The sort returns a permutation of its input. */
  lemma {:induction false} SortPermutes(s: seq<Bookmark>)
    ensures multiset(SortByDate(s)) == multiset(s)
    decreases |s|
  {
    if s != [] {
      var m := MaxKey(s);
      SortPermutes(WithoutKey(s, m));
      SplitByKey(s, m);
    }
  }

  /** Each record of `rest` sorts below the block of maximal key. */
  lemma BelowMaxKey(s: seq<Bookmark>, x: Bookmark)
    requires s != []
    requires x in multiset(WithoutKey(s, MaxKey(s)))
    ensures DateKey(x) < MaxKey(s)
  {
    var m := MaxKey(s);
    SplitByKey(s, m);
    assert x in multiset(s);
    var i :| 0 <= i < |s| && s[i] == x;
    var j :| 0 <= j < |WithoutKey(s, m)| && WithoutKey(s, m)[j] == x;
  }

  lemma ConcatSorted(front: seq<Bookmark>, back: seq<Bookmark>, m: int)
    requires forall i :: 0 <= i < |front| ==> DateKey(front[i]) == m
    requires forall j :: 0 <= j < |back| ==> DateKey(back[j]) < m
    requires IsSortedByDate(back)
    ensures IsSortedByDate(front + back)
  {
    var r := front + back;
    forall i, j | 0 <= i < j < |r| ensures DateKey(r[i]) >= DateKey(r[j]) {
      if j < |front| {
        assert r[i] == front[i] && r[j] == front[j];
      } else if i < |front| {
        assert r[i] == front[i] && r[j] == back[j - |front|];
      } else {
        assert r[i] == back[i - |front|] && r[j] == back[j - |front|];
      }
    }
  }

  /** The sort returns its input newest first. */
  lemma {:induction false} SortIsSorted(s: seq<Bookmark>)
    ensures IsSortedByDate(SortByDate(s))
    decreases |s|
  {
    if s != [] {
      var m := MaxKey(s);
      var rest := WithoutKey(s, m);
      var back := SortByDate(rest);
      SortIsSorted(rest);
      SortPermutes(rest);
      forall j | 0 <= j < |back| ensures DateKey(back[j]) < m {
        assert back[j] in multiset(back);
        BelowMaxKey(s, back[j]);
      }
      ConcatSorted(WithKey(s, m), back, m);
    }
  }

  /** Stability: the records of each key come out in their input order. */
  lemma {:induction false} SortIsStable(s: seq<Bookmark>, k: int)
    ensures WithKey(SortByDate(s), k) == WithKey(s, k)
    decreases |s|
  {
    if s != [] {
      var m := MaxKey(s);
      SortIsStable(WithoutKey(s, m), k);
      WithKeyOfConcat(WithKey(s, m), SortByDate(WithoutKey(s, m)), k);
      WithKeyOfWithKey(s, m, k);
      WithKeyOfWithoutKey(s, m, k);
      if k == m {
        WithKeyEmpty(WithoutKey(s, m), m);
        assert WithKey(SortByDate(WithoutKey(s, m)), k) == [];
      }
    }
  }

  /** A stable sort's result is fixed by the order within each key. */
  lemma {:induction false} SortDeterminedByKeyClasses(a: seq<Bookmark>, b: seq<Bookmark>)
    requires forall k :: WithKey(a, k) == WithKey(b, k)
    ensures SortByDate(a) == SortByDate(b)
    decreases |a|
  {
    if a == [] {
      if b != [] {
        WithKeyEmpty(b, DateKey(b[0]));
        assert false;
      }
    } else if b == [] {
      WithKeyEmpty(a, DateKey(a[0]));
      assert false;
    } else {
      var ma, mb := MaxKey(a), MaxKey(b);
      WithKeyEmpty(a, ma);
      WithKeyEmpty(b, ma);
      WithKeyEmpty(a, mb);
      WithKeyEmpty(b, mb);
      assert ma == mb;
      forall k ensures WithKey(WithoutKey(a, ma), k) == WithKey(WithoutKey(b, ma), k) {
        WithKeyOfWithoutKey(a, ma, k);
        WithKeyOfWithoutKey(b, ma, k);
      }
      SortDeterminedByKeyClasses(WithoutKey(a, ma), WithoutKey(b, ma));
    }
  }

  /** Sorting part of the list first changes nothing in the final sort:
      the reason the nested in-place sorts do not affect the result. */
  lemma SortAbsorbsPresort(a: seq<Bookmark>, b: seq<Bookmark>)
    ensures SortByDate(SortByDate(a) + b) == SortByDate(a + b)
  {
    forall k ensures WithKey(SortByDate(a) + b, k) == WithKey(a + b, k) {
      WithKeyOfConcat(SortByDate(a), b, k);
      WithKeyOfConcat(a, b, k);
      SortIsStable(a, k);
    }
    SortDeterminedByKeyClasses(SortByDate(a) + b, a + b);
  }

  lemma SortIdempotent(a: seq<Bookmark>)
    ensures SortByDate(SortByDate(a)) == SortByDate(a)
  {
    SortAbsorbsPresort(a, []);
    assert SortByDate(a) + [] == SortByDate(a);
    assert a + [] == a;
  }

  // The tree walk.

  /** The tag a folder hands to its subtree: its lower-cased title, or the
      inherited tag when it has none. */
  function FolderTag(n: TreeNode, inherited: string): string {
    if n.title != "" then ToLower(n.title) else inherited
  }

  /** The record pushed for a node with a url. */
  function RecordOf(n: TreeNode, folder: string): (b: Bookmark)
    requires IsTruthy(n.url)
  {
    Bookmark(n.id, n.title, n.url.value, None, None, Some(folder), n.dateAdded, n.parentId, None, Absent)
  }

  /** Every record the walk pushes, in push order (depth-first pre-order). */
  function Flatten(nodes: seq<TreeNode>, folder: string): seq<Bookmark>
    decreases nodes
  {
    if nodes == [] then [] else FlattenNode(nodes[0], folder) + Flatten(nodes[1..], folder)
  }

  function FlattenNode(n: TreeNode, folder: string): seq<Bookmark>
    decreases n
  {
    if IsTruthy(n.url) then [RecordOf(n, folder)]
    else match n.children
      case ChildList(children) => Flatten(children, FolderTag(n, folder))
      case NoChildren => []
  }

  lemma {:induction false} FlattenAppend(nodes: seq<TreeNode>, i: nat, folder: string)
    requires i < |nodes|
    ensures Flatten(nodes[..i + 1], folder) == Flatten(nodes[..i], folder) + FlattenNode(nodes[i], folder)
    decreases i
  {
    if i == 0 {
      assert nodes[..1][1..] == [];
    } else {
      assert nodes[..i + 1][1..] == nodes[1..][..i];
      assert nodes[..i][1..] == nodes[1..][..i - 1];
      FlattenAppend(nodes[1..], i - 1, folder);
    }
  }

  /** The number of nodes with a url that the walk reaches (it does not
      look below a node that has a url). */
  function UrlNodeCount(nodes: seq<TreeNode>): nat
    decreases nodes
  {
    if nodes == [] then 0 else NodeUrlCount(nodes[0]) + UrlNodeCount(nodes[1..])
  }

  function NodeUrlCount(n: TreeNode): nat
    decreases n
  {
    if IsTruthy(n.url) then 1
    else match n.children
      case ChildList(children) => UrlNodeCount(children)
      case NoChildren => 0
  }

  /** One record per url-bearing node, whatever the folder tags. */
  lemma {:induction false} FlattenCounts(nodes: seq<TreeNode>, folder: string)
    ensures |Flatten(nodes, folder)| == UrlNodeCount(nodes)
    decreases nodes
  {
    if nodes != [] {
      FlattenNodeCounts(nodes[0], folder);
      FlattenCounts(nodes[1..], folder);
    }
  }

  lemma {:induction false} FlattenNodeCounts(n: TreeNode, folder: string)
    ensures |FlattenNode(n, folder)| == NodeUrlCount(n)
    decreases n
  {
    if !IsTruthy(n.url) {
      match n.children
      case ChildList(children) => FlattenCounts(children, FolderTag(n, folder));
      case NoChildren =>
    }
  }

  predicate TagsAreLowerCase(records: seq<Bookmark>) {
    forall i :: 0 <= i < |records| ==>
      records[i].originalFolder.Some? && HasNoUpperCase(records[i].originalFolder.value)
  }

  /** Starting from "other", every folder tag is lower case. */
  lemma {:induction false} FlattenTagsLowerCase(nodes: seq<TreeNode>, folder: string)
    requires HasNoUpperCase(folder)
    ensures TagsAreLowerCase(Flatten(nodes, folder))
    decreases nodes
  {
    if nodes != [] {
      FlattenNodeTagsLowerCase(nodes[0], folder);
      FlattenTagsLowerCase(nodes[1..], folder);
    }
  }

  lemma {:induction false} FlattenNodeTagsLowerCase(n: TreeNode, folder: string)
    requires HasNoUpperCase(folder)
    ensures TagsAreLowerCase(FlattenNode(n, folder))
    decreases n
  {
    if !IsTruthy(n.url) {
      match n.children
      case ChildList(children) => FlattenTagsLowerCase(children, FolderTag(n, folder));
      case NoChildren =>
    }
  }

  /** A node with a url yields exactly its own record; its children, if it
      has any, are not visited. */
  lemma UrlNodeIsLeaf(n: TreeNode, folder: string)
    requires IsTruthy(n.url)
    ensures FlattenNode(n, folder) == [RecordOf(n, folder)]
    ensures forall c :: FlattenNode(n.(children := c), folder) == FlattenNode(n, folder)
    ensures var r := FlattenNode(n, folder)[0];
      r.id == n.id && r.title == n.title && Some(r.url) == n.url && r.originalFolder == Some(folder)
      && r.dateAdded == n.dateAdded && r.parentId == n.parentId
  {
  }

  /** A titled folder passes its lower-cased title down, an untitled one
      the tag it inherited. */
  lemma FolderTagging(n: TreeNode, folder: string, children: seq<TreeNode>)
    requires !IsTruthy(n.url) && n.children == ChildList(children)
    ensures n.title != "" ==> FlattenNode(n, folder) == Flatten(children, ToLower(n.title))
    ensures n.title == "" ==> FlattenNode(n, folder) == Flatten(children, folder)
  {
  }

  function Min(a: int, b: int): int {
    if a <= b then a else b
  }

  /** `.slice(0, 30)`. */
  function Top(s: seq<Bookmark>): (r: seq<Bookmark>)
    ensures |r| == Min(Limit, |s|) && r == s[..|r|]
  {
    s[..Min(Limit, |s|)]
  }

  /** What the top-level call returns: the first 30 of a stable newest-first
      sort of all records in pre-order. */
  function Extracted(tree: seq<TreeNode>): seq<Bookmark> {
    Top(SortByDate(Flatten(tree, "other")))
  }

  /** Two lists hold the same records of every date in the same order; a
      stable sort cannot tell them apart. */
  ghost predicate SameTies(a: seq<Bookmark>, b: seq<Bookmark>) {
    forall k :: WithKey(a, k) == WithKey(b, k)
  }

  /** extractBookmarksFromTree: the loop pushes records and recurses into
      folders with the same accumulator; every call, nested or not, sorts the
      accumulator in place, and the slice a nested call returns is dropped. */
  method ExtractBookmarksFromTree(tree: seq<TreeNode>, acc: Accumulator, parentFolder: string)
    returns (top: seq<Bookmark>)
    modifies acc
    ensures acc.items == SortByDate(old(acc.items) + Flatten(tree, parentFolder))
    ensures top == Top(acc.items)
    decreases tree
  {
    var i := 0;
    assert old(acc.items) + Flatten(tree[..0], parentFolder) == acc.items;
    while i < |tree|
      invariant 0 <= i <= |tree|
      invariant SameTies(acc.items, old(acc.items) + Flatten(tree[..i], parentFolder))
    {
      var node := tree[i];
      ghost var before := acc.items;
      if IsTruthy(node.url) {
        acc.items := acc.items + [RecordOf(node, parentFolder)];
      } else {
        match node.children
        case ChildList(children) =>
          var _ := ExtractBookmarksFromTree(children, acc, FolderTag(node, parentFolder));
          forall k ensures WithKey(acc.items, k) == WithKey(before + FlattenNode(node, parentFolder), k) {
            SortIsStable(before + FlattenNode(node, parentFolder), k);
          }
        case NoChildren =>
          assert before + [] == before;
      }
      StepKeepsTies(before, acc.items, old(acc.items), tree, i, parentFolder);
      i := i + 1;
    }
    assert tree[..i] == tree;
    SortDeterminedByKeyClasses(acc.items, old(acc.items) + Flatten(tree, parentFolder));
    acc.items := SortByDate(acc.items);
    top := acc.items[..Min(Limit, |acc.items|)];
  }

  /** One turn of the walk's loop: per date, the accumulator holds what has
      been pushed so far, in push order. */
  lemma StepKeepsTies(before: seq<Bookmark>, after: seq<Bookmark>, start: seq<Bookmark>,
                      tree: seq<TreeNode>, i: nat, folder: string)
    requires i < |tree|
    requires SameTies(before, start + Flatten(tree[..i], folder))
    requires SameTies(after, before + FlattenNode(tree[i], folder))
    ensures SameTies(after, start + Flatten(tree[..i + 1], folder))
  {
    var done, piece := start + Flatten(tree[..i], folder), FlattenNode(tree[i], folder);
    FlattenAppend(tree, i, folder);
    assert done + piece == start + Flatten(tree[..i + 1], folder);
    forall k ensures WithKey(after, k) == WithKey(done + piece, k) {
      WithKeyOfConcat(before, piece, k);
      WithKeyOfConcat(done, piece, k);
    }
  }

  /** getBookmarksData's call: a fresh accumulator and the tag "other". */
  method ExtractFromTree(tree: seq<TreeNode>) returns (top: seq<Bookmark>)
    ensures top == Extracted(tree)
  {
    var acc := new Accumulator();
    top := ExtractBookmarksFromTree(tree, acc, "other");
    assert [] + Flatten(tree, "other") == Flatten(tree, "other");
  }

  // What the caller receives.

  lemma ExtractedIsSorted(tree: seq<TreeNode>)
    ensures IsSortedByDate(Extracted(tree))
  {
    SortIsSorted(Flatten(tree, "other"));
  }

  /** Truncation happens once, at the top: min(30, number of bookmarks). */
  lemma ExtractedLength(tree: seq<TreeNode>)
    ensures |Extracted(tree)| == Min(Limit, UrlNodeCount(tree))
  {
    SortPermutes(Flatten(tree, "other"));
    FlattenCounts(tree, "other");
    assert |SortByDate(Flatten(tree, "other"))| == |multiset(SortByDate(Flatten(tree, "other")))|;
  }

  /** Nothing invented or duplicated: a sub-multiset of the pre-order list. */
  lemma ExtractedIsSubMultiset(tree: seq<TreeNode>)
    ensures multiset(Extracted(tree)) <= multiset(Flatten(tree, "other"))
  {
    var all := SortByDate(Flatten(tree, "other"));
    SortPermutes(Flatten(tree, "other"));
    assert all == Extracted(tree) + all[|Extracted(tree)|..];
  }

  lemma {:induction false} WithKeyOfPrefix(s: seq<Bookmark>, n: nat, k: int)
    requires n <= |s|
    ensures WithKey(s, k) == WithKey(s[..n], k) + WithKey(s[n..], k)
  {
    assert s == s[..n] + s[n..];
    WithKeyOfConcat(s[..n], s[n..], k);
  }

  /** Ties keep traversal order: the records of each date that make the cut
      are the first ones of that date in pre-order. */
  lemma ExtractedKeepsTieOrder(tree: seq<TreeNode>, k: int)
    ensures WithKey(Extracted(tree), k) <= WithKey(Flatten(tree, "other"), k)
  {
    var all := SortByDate(Flatten(tree, "other"));
    var out := Extracted(tree);
    WithKeyOfPrefix(all, |out|, k);
    SortIsStable(Flatten(tree, "other"), k);
  }

  lemma TagsOfSubMultiset(a: seq<Bookmark>, b: seq<Bookmark>)
    requires multiset(a) <= multiset(b) && TagsAreLowerCase(b)
    ensures TagsAreLowerCase(a)
  {
    forall i | 0 <= i < |a|
      ensures a[i].originalFolder.Some? && HasNoUpperCase(a[i].originalFolder.value)
    {
      assert a[i] in multiset(a);
      var j :| 0 <= j < |b| && b[j] == a[i];
    }
  }

  /** Every tag the caller receives is lower case. */
  lemma ExtractedTagsLowerCase(tree: seq<TreeNode>)
    ensures TagsAreLowerCase(Extracted(tree))
  {
    FlattenTagsLowerCase(tree, "other");
    ExtractedIsSubMultiset(tree);
    TagsOfSubMultiset(Extracted(tree), Flatten(tree, "other"));
  }
}
