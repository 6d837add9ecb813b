/** The bookmark list behind the sidebar (src/js/BookmarkManager.js): a list
    of records that is added to at the front, filtered by id and bumped on
    visits, each change followed by a save; records built from the browser's
    bookmark tree or from the background page; and five defaults.

    `Date.now()` is the parameter `now`; `new URL(url).hostname` is the
    favicon resolver's `hostOf`; the save to local storage is the ghost
    snapshot `persisted`. */
module Bookmarks {
  import opened Wrappers
  import opened Records
  import opened Background
  import opened Favicon
  import Text

  // extractBookmarks: the records, the walk, the cap.

  /** The record extractBookmarks pushes for a node with a url. */
  function VisitRecord(n: TreeNode, now: int): (b: Bookmark)
    requires IsTruthy(n.url)
  {
    Bookmark(n.id, n.title, n.url.value, Some("chrome://favicon/" + n.url.value),
             None, None, None, None, Some(now), Num(0))
  }

  /** Every record extractBookmarks pushes, in push order. */
  function PreOrder(nodes: seq<TreeNode>, now: int): seq<Bookmark>
    decreases nodes
  {
    if nodes == [] then [] else NodePreOrder(nodes[0], now) + PreOrder(nodes[1..], now)
  }

  function NodePreOrder(n: TreeNode, now: int): seq<Bookmark>
    decreases n
  {
    if IsTruthy(n.url) then [VisitRecord(n, now)]
    else match n.children
      case ChildList(children) => PreOrder(children, now)
      case NoChildren => []
  }

  lemma {:induction false} PreOrderAppend(nodes: seq<TreeNode>, i: nat, now: int)
    requires i < |nodes|
    ensures PreOrder(nodes[..i + 1], now) == PreOrder(nodes[..i], now) + NodePreOrder(nodes[i], now)
    decreases i
  {
    if i == 0 {
      assert nodes[..1][1..] == [];
    } else {
      assert nodes[..i + 1][1..] == nodes[1..][..i];
      assert nodes[..i][1..] == nodes[1..][..i - 1];
      PreOrderAppend(nodes[1..], i - 1, now);
    }
  }

  /** A background-page record as extractBookmarks would have built it from
      the same node. */
  function Restamp(b: Bookmark, now: int): Bookmark {
    Bookmark(b.id, b.title, b.url, Some("chrome://favicon/" + b.url), None, None, None, None, Some(now), Num(0))
  }

  function RestampAll(s: seq<Bookmark>, now: int): (r: seq<Bookmark>)
    ensures |r| == |s| && forall i :: 0 <= i < |s| ==> r[i] == Restamp(s[i], now)
  {
    seq(|s|, i requires 0 <= i < |s| => Restamp(s[i], now))
  }

  lemma RestampConcat(a: seq<Bookmark>, b: seq<Bookmark>, now: int)
    ensures RestampAll(a + b, now) == RestampAll(a, now) + RestampAll(b, now)
  {
  }

  /** The two walks visit the same nodes in the same order: extractBookmarks
      pushes, node for node, what the background page pushes, with the
      favicon, visit time and count set and the folder tag, date and parent
      dropped. */
  lemma {:induction false} PreOrderIsBackgroundOrder(nodes: seq<TreeNode>, folder: string, now: int)
    ensures PreOrder(nodes, now) == RestampAll(Flatten(nodes, folder), now)
    decreases nodes
  {
    if nodes != [] {
      NodePreOrderIsBackgroundOrder(nodes[0], folder, now);
      PreOrderIsBackgroundOrder(nodes[1..], folder, now);
      RestampConcat(FlattenNode(nodes[0], folder), Flatten(nodes[1..], folder), now);
    }
  }

  lemma {:induction false} NodePreOrderIsBackgroundOrder(n: TreeNode, folder: string, now: int)
    ensures NodePreOrder(n, now) == RestampAll(FlattenNode(n, folder), now)
    decreases n
  {
    if !IsTruthy(n.url) {
      match n.children
      case ChildList(children) => PreOrderIsBackgroundOrder(children, FolderTag(n, folder), now);
      case NoChildren =>
    }
  }

  /** One record per url-bearing node, each with the browser's favicon URL
      of its page, a zero count and the visit time `now`. */
  lemma PreOrderRecords(nodes: seq<TreeNode>, now: int)
    ensures |PreOrder(nodes, now)| == UrlNodeCount(nodes)
    ensures forall i :: 0 <= i < |PreOrder(nodes, now)| ==>
      var b := PreOrder(nodes, now)[i];
      b.favicon == Some("chrome://favicon/" + b.url) && b.visitCount == Num(0) && b.lastVisited == Some(now)
  {
    PreOrderIsBackgroundOrder(nodes, "other", now);
    FlattenCounts(nodes, "other");
  }

  /** The list extractBookmarks returns from the top-level call. */
  function ExtractedBookmarks(tree: seq<TreeNode>, now: int): seq<Bookmark> {
    Top(PreOrder(tree, now))
  }

  /** The first min(30, n) url-bearing nodes in pre-order: nested calls do
      not cut their folders short. */
  lemma ExtractedBookmarksLength(tree: seq<TreeNode>, now: int)
    ensures |ExtractedBookmarks(tree, now)| == Min(Limit, UrlNodeCount(tree))
    ensures ExtractedBookmarks(tree, now) <= PreOrder(tree, now)
  {
    PreOrderRecords(tree, now);
  }

  class BookmarkManager {
    var bookmarks: seq<Bookmark>
    /** What the last saveBookmarks wrote, if any. */
    ghost var persisted: Option<seq<Bookmark>>
    const faviconLoader: FaviconLoader

    ghost predicate Valid()
      reads this, faviconLoader
    {
      faviconLoader.Valid()
    }

    /** The constructor, without its background load. */
    constructor (hostOf: string -> Option<string>)
      ensures Valid() && fresh(faviconLoader) && faviconLoader.hostOf == hostOf
      ensures bookmarks == [] && persisted == None
    {
      var loader := new FaviconLoader(hostOf);
      bookmarks, persisted, faviconLoader := [], None, loader;
    }

    /** extractBookmarks: pushes into the shared accumulator and returns its
        first 30; the slices that nested calls return are dropped. */
    method ExtractBookmarks(bookmarkTree: seq<TreeNode>, acc: Accumulator, now: int)
      returns (top: seq<Bookmark>)
      modifies acc
      ensures acc.items == old(acc.items) + PreOrder(bookmarkTree, now)
      ensures top == Top(acc.items)
      decreases bookmarkTree
    {
      var i := 0;
      assert old(acc.items) + PreOrder(bookmarkTree[..0], now) == acc.items;
      while i < |bookmarkTree|
        invariant 0 <= i <= |bookmarkTree|
        invariant acc.items == old(acc.items) + PreOrder(bookmarkTree[..i], now)
      {
        var node := bookmarkTree[i];
        ghost var before := acc.items;
        if IsTruthy(node.url) {
          acc.items := acc.items + [VisitRecord(node, now)];
        } else {
          match node.children
          case ChildList(children) =>
            var _ := ExtractBookmarks(children, acc, now);
          case NoChildren =>
            assert before + [] == before;
        }
        PreOrderAppend(bookmarkTree, i, now);
        i := i + 1;
      }
      assert bookmarkTree[..i] == bookmarkTree;
      top := acc.items[..Min(Limit, |acc.items|)];
    }

    /** The call with a fresh accumulator. */
    method ExtractFromTree(bookmarkTree: seq<TreeNode>, now: int) returns (top: seq<Bookmark>)
      ensures top == ExtractedBookmarks(bookmarkTree, now)
    {
      var acc := new Accumulator();
      top := ExtractBookmarks(bookmarkTree, acc, now);
      assert [] + PreOrder(bookmarkTree, now) == PreOrder(bookmarkTree, now);
    }

    /** processBookmarksFromBackground: every record, in order, with its
        visit time set to now, its count reset and its favicon resolved. */
    method ProcessBookmarksFromBackground(records: seq<Bookmark>, now: int) returns (result: seq<Bookmark>)
      requires Valid()
      modifies faviconLoader
      ensures Valid()
      ensures |result| == |records|
      ensures forall i :: 0 <= i < |result| ==>
        && result[i].favicon.Some? && |result[i].favicon.value| > 0
        && result[i] == records[i].(lastVisited := Some(now), visitCount := Num(0), favicon := result[i].favicon)
        && (result[i].favicon.value == faviconLoader.defaultIcon
            || IsCandidate(faviconLoader.faviconSources, faviconLoader.Domain(records[i].url), DefaultSize, result[i].favicon.value))
    {
      var stamped := seq(|records|, i requires 0 <= i < |records| =>
        records[i].(lastVisited := Some(now), visitCount := Num(0)));
      result := faviconLoader.PreloadFavicons(stamped);
    }

    /** getDefaultBookmarks: the five defaults with their favicons resolved. */
    method GetDefaultBookmarks() returns (result: seq<Bookmark>)
      requires Valid()
      modifies faviconLoader
      ensures Valid()
      ensures |result| == 5
      ensures forall i :: 0 <= i < 5 ==>
        && result[i] == DefaultBookmarks()[i].(favicon := result[i].favicon)
        && result[i].favicon.Some? && |result[i].favicon.value| > 0
        && (result[i].favicon.value == faviconLoader.defaultIcon
            || IsCandidate(faviconLoader.faviconSources, faviconLoader.Domain(DefaultBookmarks()[i].url), DefaultSize, result[i].favicon.value))
    {
      result := faviconLoader.PreloadFavicons(DefaultBookmarks());
    }

    /** getAllBookmarks hands out the live list itself. */
    function GetAllBookmarks(): (r: seq<Bookmark>)
      reads this
      ensures r == bookmarks
    {
      bookmarks
    }

    /** addBookmark: a new record in front, the rest behind it unchanged,
        then a save. When `new URL(url)` throws, so does addBookmark, before
        anything changes. */
    method AddBookmark(title: string, url: string, now: nat) returns (added: Option<Bookmark>)
      requires Valid()
      modifies this
      ensures Valid()
      ensures faviconLoader.hostOf(url).None? ==>
        added == None && bookmarks == old(bookmarks) && persisted == old(persisted)
      ensures faviconLoader.hostOf(url).Some? ==>
        && added == Some(NewBookmark(title, url, faviconLoader.hostOf(url).value, now))
        && bookmarks == [added.value] + old(bookmarks)
        && persisted == Some(bookmarks)
    {
      var host := faviconLoader.hostOf(url);
      if host.None? {
        return None;
      }
      var bookmark := NewBookmark(title, url, host.value, now);
      bookmarks := [bookmark] + bookmarks;
      SaveBookmarks();
      added := Some(bookmark);
    }

    /** removeBookmark: keep the records with another id, then save. */
    method RemoveBookmark(id: string)
      requires Valid()
      modifies this
      ensures Valid()
      ensures bookmarks == WithoutId(old(bookmarks), id)
      ensures persisted == Some(bookmarks)
    {
      bookmarks := WithoutId(bookmarks, id);
      SaveBookmarks();
    }

    /** recordVisit: the first record with the id gets one more visit and
        the visit time now, and the list is saved; with no such record
        nothing happens. */
    method RecordVisit(id: string, now: int)
      requires Valid()
      modifies this
      ensures Valid()
      ensures FindById(old(bookmarks), id).None? ==>
        bookmarks == old(bookmarks) && persisted == old(persisted)
      ensures FindById(old(bookmarks), id).Some? ==>
        var i := FindById(old(bookmarks), id).value;
        && bookmarks == old(bookmarks)[i := Visited(old(bookmarks)[i], now)]
        && persisted == Some(bookmarks)
    {
      var found := FindById(bookmarks, id);
      if found.Some? {
        var i := found.value;
        bookmarks := bookmarks[i := Visited(bookmarks[i], now)];
        SaveBookmarks();
      }
    }

    /** saveBookmarks, as the snapshot it leaves behind. */
    method SaveBookmarks()
      requires Valid()
      modifies this`persisted
      ensures Valid()
      ensures persisted == Some(bookmarks)
    {
      persisted := Some(bookmarks);
    }
  }

  // The records and list operations the manager's methods are built on.

  /** The five defaults: id, title and url only. */
  function DefaultBookmarks(): seq<Bookmark> {
    [ Plain("1", "GitHub", "https://github.com"),
      Plain("2", "YouTube", "https://youtube.com"),
      Plain("3", "Gmail", "https://gmail.com"),
      Plain("4", "Reddit", "https://reddit.com"),
      Plain("5", "Amazon", "https://amazon.com") ]
  }

  function Plain(id: string, title: string, url: string): Bookmark {
    Bookmark(id, title, url, None, None, None, None, None, None, Absent)
  }

  /** Ids "1" to "5" in order, with GitHub, YouTube, Gmail, Reddit and Amazon;
      the defaults carry no visit count, so a visit to one makes it NaN. */
  lemma DefaultBookmarksTable()
    ensures |DefaultBookmarks()| == 5
    ensures forall i :: 0 <= i < 5 ==> DefaultBookmarks()[i].id == [Text.DigitChar(i + 1)]
    ensures forall i, j :: 0 <= i < j < 5 ==> DefaultBookmarks()[i].id != DefaultBookmarks()[j].id
    ensures [DefaultBookmarks()[0].title, DefaultBookmarks()[1].title, DefaultBookmarks()[2].title,
             DefaultBookmarks()[3].title, DefaultBookmarks()[4].title]
         == ["GitHub", "YouTube", "Gmail", "Reddit", "Amazon"]
    ensures forall i :: 0 <= i < 5 ==> Visited(DefaultBookmarks()[i], 0).visitCount == NaN
  {
  }

  /** The record addBookmark builds: its id is the time as text, its favicon
      the first generator's URL without a size, for the unstripped host. */
  function NewBookmark(title: string, url: string, host: string, now: nat): (b: Bookmark)
    ensures b.title == title && b.url == url && b.id == Text.NatToString(now) && Text.AllDigits(b.id)
    ensures b.category == Some("other") && b.visitCount == Num(0) && b.lastVisited == Some(now)
    ensures b.favicon == Some("https://www.google.com/s2/favicons?domain=" + host)
  {
    Bookmark(Text.IntToString(now), title, url, Some("https://www.google.com/s2/favicons?domain=" + host),
             Some("other"), None, None, None, Some(now), Num(0))
  }

  /** `filter((bookmark) => bookmark.id !== id)`. */
  function WithoutId(s: seq<Bookmark>, id: string): (r: seq<Bookmark>)
    ensures |r| <= |s|
  {
    if s == [] then []
    else if s[0].id == id then WithoutId(s[1..], id)
    else [s[0]] + WithoutId(s[1..], id)
  }

  /** Exactly the records with another id stay; none with the id remains. */
  lemma {:induction false} WithoutIdMembers(s: seq<Bookmark>, id: string)
    ensures forall b :: b in WithoutId(s, id) <==> b in s && b.id != id
  {
    if s != [] {
      WithoutIdMembers(s[1..], id);
      assert s == [s[0]] + s[1..];
    }
  }

  /** The kept records keep their order: filtering a list in two pieces is
      filtering each piece. */
  lemma {:induction false} WithoutIdConcat(a: seq<Bookmark>, b: seq<Bookmark>, id: string)
    ensures WithoutId(a + b, id) == WithoutId(a, id) + WithoutId(b, id)
  {
    if a == [] {
      assert a + b == b;
    } else {
      assert (a + b)[1..] == a[1..] + b;
      WithoutIdConcat(a[1..], b, id);
    }
  }

  /** Removing an id that is not there changes nothing, and removing twice
      is removing once. */
  lemma {:induction false} WithoutIdAbsent(s: seq<Bookmark>, id: string)
    requires forall i :: 0 <= i < |s| ==> s[i].id != id
    ensures WithoutId(s, id) == s
  {
    if s != [] {
      WithoutIdAbsent(s[1..], id);
      assert s == [s[0]] + s[1..];
    }
  }

  lemma WithoutIdIdempotent(s: seq<Bookmark>, id: string)
    ensures WithoutId(WithoutId(s, id), id) == WithoutId(s, id)
  {
    WithoutIdMembers(s, id);
    WithoutIdAbsent(WithoutId(s, id), id);
  }

  /** `find((b) => b.id === id)`, as an index. */
  function FindById(s: seq<Bookmark>, id: string): (r: Option<nat>)
    ensures r.Some? ==> r.value < |s| && s[r.value].id == id && forall j :: 0 <= j < r.value ==> s[j].id != id
    ensures r.None? ==> forall j :: 0 <= j < |s| ==> s[j].id != id
  {
    if s == [] then None
    else if s[0].id == id then Some(0)
    else match FindById(s[1..], id)
      case None => None
      case Some(i) => Some(i + 1)
  }

  /** The visited record: one more visit, seen at `now`, all else kept. */
  function Visited(b: Bookmark, now: int): (v: Bookmark)
    ensures v == b.(visitCount := v.visitCount, lastVisited := Some(now))
    ensures b.visitCount.Num? ==> v.visitCount == Num(b.visitCount.n + 1)
    ensures !b.visitCount.Num? ==> v.visitCount == NaN
  {
    b.(visitCount := Increment(b.visitCount), lastVisited := Some(now))
  }
}
