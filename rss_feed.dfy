/** The RSS generation script: the posts are derived from the entries of the
    content directory (every entry but `img`, each one's frontmatter with its
    slug taken from the file name), sorted newest first, and appended to the
    feed one item each.

    Reading and parsing a file is opaque: a parameter mapping an entry name
    to its frontmatter. A post's date is an integer key standing for the
    ordered date value. */
module RssFeed {
  import opened Common

  /** The frontmatter fields the feed uses. `slug` is whatever the file
      declares; the script overrides it. */
  datatype FrontMatter = FrontMatter(title: string, subtitle: string, date: int, slug: Option<string>)

  datatype Post = Post(title: string, subtitle: string, date: int, slug: string)

  /** The feed-level settings. */
  datatype Channel = Channel(
    title: string, description: string, siteUrl: string, feedUrl: string,
    imageUrl: string, language: string)

  datatype Item = Item(
    title: string, description: string, date: int, author: string, url: string, guid: string)

  const ExcludedEntry := "img"
  const MdxExtension := ".mdx"
  const PostsPrefix := "https://blog.data-v.site/posts/"
  const Author := "Valerie Andy"

  const BlogChannel := Channel(
    "Valerie Andy's Blog",
    "Hi I'm Valerie Andy, and this is my blog. Home to my audio visualizer series exploring sonic identity through creative code, released every Wednesday. As a computational designer, I dive deep into the intersection of sound, code, and visual expression.",
    "https://blog.data-v.site",
    "https://blog.data-v.site/rss.xml",
    "https://blog.data-v.site/static/og/main-og-image.png",
    "en")

  // ---------------------------------------------------------------------
  // getPosts
  // ---------------------------------------------------------------------

  /** The directory listing without the `img` entry, order kept. */
  function Listed(names: seq<string>): (r: seq<string>)
    ensures multiset(r) == multiset(names)[ExcludedEntry := 0]
    ensures forall k :: 0 <= k < |r| ==> r[k] != ExcludedEntry
  {
    if names == [] then []
    else
      assert names == [names[0]] + names[1..];
      (if names[0] == ExcludedEntry then [] else [names[0]]) + Listed(names[1..])
  }

  /** A file name with its first `.mdx` removed. */
  function Slug(name: string): (slug: string)
    ensures !Occurs(name, MdxExtension) ==> slug == name
    ensures Occurs(name, MdxExtension) ==> |slug| == |name| - |MdxExtension|
    ensures Occurs(name, MdxExtension) ==>
      exists i: nat :: HasAt(name, i, MdxExtension) && (forall q: nat :: q < i ==> !HasAt(name, q, MdxExtension))
                       && slug == name[..i] + name[i + |MdxExtension|..]
  {
    ReplaceFirst(name, MdxExtension, "")
  }

  /** The post an entry yields: its frontmatter with the slug replaced by
      the one derived from the file name. */
  function PostFor(name: string, data: FrontMatter): (p: Post)
    ensures p.slug == Slug(name)
    ensures p.title == data.title && p.subtitle == data.subtitle && p.date == data.date
  {
    Post(data.title, data.subtitle, data.date, Slug(name))
  }

  /** The reduce: each entry's post is put in front of those made so far. */
  function PrependAll(acc: seq<Post>, names: seq<string>, read: string -> FrontMatter): (r: seq<Post>)
    ensures |r| == |acc| + |names|
    decreases |names|
  {
    if names == [] then acc
    else PrependAll([PostFor(names[0], read(names[0]))] + acc, names[1..], read)
  }

  /** `getPosts`: one post for each entry that is not `img`. */
  function GetPosts(names: seq<string>, read: string -> FrontMatter): (posts: seq<Post>)
    ensures |posts| == |Listed(names)|
  {
    PrependAll([], Listed(names), read)
  }

  /** Filtering distributes over concatenation: the entries that are kept
      stay in listing order. */
  lemma {:induction false} ListedAppend(a: seq<string>, b: seq<string>)
    ensures Listed(a + b) == Listed(a) + Listed(b)
    decreases |a|
  {
    if a == [] {
      assert a + b == b;
    } else {
      var head := if a[0] == ExcludedEntry then [] else [a[0]];
      ListedStep(a, b);
      ListedAppend(a[1..], b);
      ListedCons(a);
      Regroup(head, Listed(a), Listed(a[1..]), Listed(b), Listed(a + b), Listed(a[1..] + b));
    }
  }

  /** The sequence bookkeeping of `ListedAppend`'s step. */
  lemma Regroup(head: seq<string>, la: seq<string>, rest: seq<string>, lb: seq<string>, lab: seq<string>, restb: seq<string>)
    requires lab == head + restb && restb == rest + lb && la == head + rest
    ensures lab == la + lb
  {
  }

  lemma ListedCons(a: seq<string>)
    requires a != []
    ensures Listed(a) == (if a[0] == ExcludedEntry then [] else [a[0]]) + Listed(a[1..])
  {
  }

  /** One step of `ListedAppend`: the head of `a` is the head of `a + b`. */
  lemma ListedStep(a: seq<string>, b: seq<string>)
    requires a != []
    ensures Listed(a + b) == (if a[0] == ExcludedEntry then [] else [a[0]]) + Listed(a[1..] + b)
  {
    assert (a + b)[0] == a[0];
    assert (a + b)[1..] == a[1..] + b;
  }

  /** A single entry is kept exactly when it is not `img`. */
  lemma ListedSingle(x: string)
    ensures Listed([x]) == (if x == ExcludedEntry then [] else [x])
  {
    assert [x][1..] == [];
  }

  /** The posts of a listing, in listing order: the reference the reduce is
      compared with. */
  function PostsInOrder(names: seq<string>, read: string -> FrontMatter): (posts: seq<Post>)
    ensures |posts| == |names|
    ensures forall k :: 0 <= k < |names| ==> posts[k] == PostFor(names[k], read(names[k]))
  {
    seq(|names|, k requires 0 <= k < |names| => PostFor(names[k], read(names[k])))
  }

  function Reverse<T>(s: seq<T>): (r: seq<T>)
    ensures |r| == |s|
    ensures forall k :: 0 <= k < |s| ==> r[k] == s[|s| - 1 - k]
  {
    seq(|s|, k requires 0 <= k < |s| => s[|s| - 1 - k])
  }

  lemma {:induction false} ReverseMultiset<T>(s: seq<T>)
    ensures multiset(Reverse(s)) == multiset(s)
    decreases |s|
  {
    if s != [] {
      var t := s[1..];
      ReverseMultiset(t);
      assert s == [s[0]] + t;
      assert Reverse(s) == Reverse(t) + [s[0]];
    }
  }

  /** The reduce reverses: with an accumulator, it puts the reversed posts
      of the remaining entries in front of it. */
  lemma {:induction false} PrependAllReverses(acc: seq<Post>, names: seq<string>, read: string -> FrontMatter)
    ensures PrependAll(acc, names, read) == Reverse(PostsInOrder(names, read)) + acc
    decreases |names|
  {
    if names != [] {
      var head := PostFor(names[0], read(names[0]));
      PrependAllReverses([head] + acc, names[1..], read);
      ReverseInOrder(names, read);
      assert Reverse(PostsInOrder(names[1..], read)) + ([head] + acc)
          == (Reverse(PostsInOrder(names[1..], read)) + [head]) + acc;
    }
  }

  /** The reversed posts of a listing end with the post of its first entry. */
  lemma ReverseInOrder(names: seq<string>, read: string -> FrontMatter)
    requires names != []
    ensures Reverse(PostsInOrder(names, read))
         == Reverse(PostsInOrder(names[1..], read)) + [PostFor(names[0], read(names[0]))]
  {
  }

  /** Removing `img` shortens the listing by its number of `img` entries. */
  lemma ListedLength(names: seq<string>)
    ensures |Listed(names)| == |names| - multiset(names)[ExcludedEntry]
  {
    var m := multiset(names);
    assert |Listed(names)| == |multiset(Listed(names))|;
    assert m == m[ExcludedEntry := 0] + multiset{}[ExcludedEntry := m[ExcludedEntry]];
  }

  /** Before sorting, the posts are those of the listing without `img`,
      last entry first. */
  lemma GetPostsIsReversedListing(names: seq<string>, read: string -> FrontMatter)
    ensures GetPosts(names, read) == Reverse(PostsInOrder(Listed(names), read))
  {
    var posts := PostsInOrder(Listed(names), read);
    PrependAllReverses([], Listed(names), read);
    assert Reverse(posts) + [] == Reverse(posts);
  }

  /** One post per entry other than `img`: none is dropped or duplicated. */
  lemma GetPostsCount(names: seq<string>, read: string -> FrontMatter)
    ensures |GetPosts(names, read)| == |names| - multiset(names)[ExcludedEntry]
  {
    GetPostsIsReversedListing(names, read);
    ListedLength(names);
  }

  /** A name `<stem>.mdx<rest>` whose stem has no `.mdx` of its own loses
      exactly that `.mdx`, wherever else `.mdx` occurs in `rest`; the
      frontmatter has no say in the slug. */
  lemma SlugStripsFirstExtension(stem: string, rest: string, data: FrontMatter)
    requires !Occurs(stem, MdxExtension)
    ensures Slug(stem + MdxExtension + rest) == stem + rest
    ensures PostFor(stem + MdxExtension + rest, data).slug == stem + rest
  {
    var name := stem + MdxExtension + rest;
    assert name[|stem|..|stem| + 4] == MdxExtension;
    assert HasAt(name, |stem|, MdxExtension);
    forall q: nat | q < |stem|
      ensures !HasAt(name, q, MdxExtension)
    {
      if q + 4 <= |stem| {
        assert name[q..q + 4] == stem[q..q + 4];
        assert !HasAt(stem, q, MdxExtension);
      } else {
        var d := |stem| - q;
        assert name[|stem|] == '.' && MdxExtension[d] != '.';
        assert name[q..q + 4][d] == name[|stem|];
      }
    }
    var r := IndexOf(name, MdxExtension);
    assert Occurs(name, MdxExtension);
    assert r.Some? && !(r.value < |stem|) && !(|stem| < r.value);
    assert name[..|stem|] == stem && name[|stem| + 4..] == rest;
  }

  // ---------------------------------------------------------------------
  // The sort
  // ---------------------------------------------------------------------

  /** The comparator: a later date first; every other pair, equal dates
      included, answers 1. */
  function Compare(p1: Post, p2: Post): (c: int)
    ensures c == -1 <==> p1.date > p2.date
    ensures c == -1 || c == 1
  {
    if p1.date > p2.date then -1 else 1
  }

  /** For equal dates the comparator says each post goes after the other,
      so it fixes no order between them. */
  lemma CompareTies(p1: Post, p2: Post)
    requires p1.date == p2.date
    ensures Compare(p1, p2) == 1 && Compare(p2, p1) == 1
  {
  }

  /** Dates never increase along the sequence. */
  ghost predicate NewestFirst(posts: seq<Post>) {
    forall i, j :: 0 <= i < j < |posts| ==> posts[i].date >= posts[j].date
  }

  /** A post no later than the head of a newest-first list goes first. */
  lemma PrependNewest(h: Post, rest: seq<Post>)
    requires NewestFirst(rest)
    requires forall k :: 0 <= k < |rest| ==> h.date >= rest[k].date
    ensures NewestFirst([h] + rest)
  {
  }

  /** Every post of a list made of `tail` and `p` is no later than `h` when
      `tail` and `p` are not. */
  lemma NoLaterThan(h: Post, p: Post, rest: seq<Post>, tail: seq<Post>)
    requires multiset(rest) == multiset(tail) + multiset{p}
    requires h.date >= p.date
    requires forall k :: 0 <= k < |tail| ==> h.date >= tail[k].date
    ensures forall k :: 0 <= k < |rest| ==> h.date >= rest[k].date
  {
    forall k | 0 <= k < |rest|
      ensures h.date >= rest[k].date
    {
      assert rest[k] in multiset(rest);
      if rest[k] != p {
        assert rest[k] in multiset(tail);
        var j :| 0 <= j < |tail| && tail[j] == rest[k];
      }
    }
  }

  /** Inserts `p` before the first post the comparator puts it in front of. */
  function Insert(p: Post, sorted: seq<Post>): (r: seq<Post>)
    requires NewestFirst(sorted)
    ensures NewestFirst(r)
    ensures multiset(r) == multiset(sorted) + multiset{p}
    decreases |sorted|
  {
    if sorted == [] then [p]
    else if Compare(p, sorted[0]) < 0 then
      PrependNewest(p, sorted);
      [p] + sorted
    else
      var rest := Insert(p, sorted[1..]);
      NoLaterThan(sorted[0], p, rest, sorted[1..]);
      PrependNewest(sorted[0], rest);
      assert sorted == [sorted[0]] + sorted[1..];
      [sorted[0]] + rest
  }

  /** `[...posts].sort(comparator)`: an insertion sort driven by the
      comparator. Ties end up in an order this model does not promise. */
  function SortByDate(posts: seq<Post>): (r: seq<Post>)
    ensures NewestFirst(r)
    ensures multiset(r) == multiset(posts)
    decreases |posts|
  {
    if posts == [] then []
    else
      assert posts == [posts[0]] + posts[1..];
      Insert(posts[0], SortByDate(posts[1..]))
  }

  /** No two posts share a date. */
  ghost predicate DistinctDates(posts: seq<Post>) {
    forall i, j :: 0 <= i < j < |posts| ==> posts[i].date != posts[j].date
  }

  /** Two newest-first orders of the same posts start with the same post
      when no two dates are equal. */
  lemma SameNewest(a: seq<Post>, b: seq<Post>)
    requires a != [] && multiset(a) == multiset(b)
    requires NewestFirst(a) && NewestFirst(b) && DistinctDates(a)
    ensures b != [] && a[0] == b[0]
  {
    assert a[0] in multiset(b) && b[0] in multiset(a);
    var k :| 0 <= k < |b| && b[k] == a[0];
    var m :| 0 <= m < |a| && a[m] == b[0];
    assert b[0].date >= b[k].date == a[0].date;
    assert a[0].date >= a[m].date == b[0].date;
    assert m == 0;
  }

  /** Dropping the newest post keeps the order and the distinct dates. */
  lemma TailNewestFirst(a: seq<Post>)
    requires a != [] && NewestFirst(a)
    ensures NewestFirst(a[1..])
    ensures DistinctDates(a) ==> DistinctDates(a[1..])
  {
  }

  /** Equal multisets with equal heads have equal tails. */
  lemma SameRest(a: seq<Post>, b: seq<Post>)
    requires a != [] && b != [] && a[0] == b[0] && multiset(a) == multiset(b)
    ensures multiset(a[1..]) == multiset(b[1..])
  {
    assert a == [a[0]] + a[1..] && b == [b[0]] + b[1..];
    assert multiset(a[1..]) == multiset(a) - multiset{a[0]};
    assert multiset(b[1..]) == multiset(b) - multiset{b[0]};
  }

  /** When no two posts share a date, there is only one newest-first order:
      any sort consistent with the comparator gives the same sequence. */
  lemma {:induction false} NewestFirstUnique(a: seq<Post>, b: seq<Post>)
    requires multiset(a) == multiset(b)
    requires NewestFirst(a) && NewestFirst(b) && DistinctDates(a)
    ensures a == b
    decreases |a|
  {
    if a == [] {
      assert |b| == |multiset(b)| == 0;
    } else {
      SameNewest(a, b);
      SameRest(a, b);
      TailNewestFirst(a);
      TailNewestFirst(b);
      NewestFirstUnique(a[1..], b[1..]);
      assert a == [a[0]] + a[1..] && b == [b[0]] + b[1..];
    }
  }

  // ---------------------------------------------------------------------
  // Feed items
  // ---------------------------------------------------------------------

  function PostUrl(slug: string): (url: string)
    ensures HasAt(url, 0, PostsPrefix) && url[|PostsPrefix|..] == slug
  {
    var url := PostsPrefix + slug;
    assert url[0..|PostsPrefix|] == PostsPrefix;
    assert url[|PostsPrefix|..] == slug;
    url
  }

  /** The item a post becomes. */
  function ItemFor(p: Post): (it: Item)
    ensures it.url == it.guid && it.url == PostUrl(p.slug)
    ensures it.title == p.title && it.description == p.subtitle && it.date == p.date
    ensures it.author == Author
  {
    Item(p.title, p.subtitle, p.date, Author, PostUrl(p.slug), PostUrl(p.slug))
  }

  function ItemsFor(posts: seq<Post>): (items: seq<Item>)
    ensures |items| == |posts|
    ensures forall k :: 0 <= k < |posts| ==> items[k] == ItemFor(posts[k])
  {
    seq(|posts|, k requires 0 <= k < |posts| => ItemFor(posts[k]))
  }

  /** Two posts with different slugs never share a url or guid. */
  lemma DistinctSlugsDistinctUrls(p1: Post, p2: Post)
    requires p1.slug != p2.slug
    ensures ItemFor(p1).url != ItemFor(p2).url && ItemFor(p1).guid != ItemFor(p2).guid
  {
    assert ItemFor(p1).url[|PostsPrefix|..] == p1.slug;
    assert ItemFor(p2).url[|PostsPrefix|..] == p2.slug;
  }

  /** The items of the whole feed, for any newest-first order of the posts
      (the script fixes none among equal dates): one per listed entry, newest
      first, each made from the post at its place. */
  lemma FeedItemsFromListing(names: seq<string>, read: string -> FrontMatter, sorted: seq<Post>)
    requires NewestFirst(sorted) && multiset(sorted) == multiset(GetPosts(names, read))
    ensures var items := ItemsFor(sorted);
      && |items| == |names| - multiset(names)[ExcludedEntry]
      && (forall i, j :: 0 <= i < j < |items| ==> items[i].date >= items[j].date)
      && (forall k :: 0 <= k < |items| ==> items[k] == ItemFor(sorted[k]))
  {
    GetPostsCount(names, read);
    FeedFacts(sorted, GetPosts(names, read));
  }

  /** The posts behind the feed's items are those of the listing without
      `img`, in some order: none is dropped, duplicated or invented. */
  lemma FeedPostsFromListing(names: seq<string>, read: string -> FrontMatter, sorted: seq<Post>)
    requires NewestFirst(sorted) && multiset(sorted) == multiset(GetPosts(names, read))
    ensures multiset(sorted) == multiset(PostsInOrder(Listed(names), read))
  {
    GetPostsPermutesListing(names, read);
  }

  /** The posts of the feed are those of the listing, in some order. */
  lemma GetPostsPermutesListing(names: seq<string>, read: string -> FrontMatter)
    ensures multiset(GetPosts(names, read)) == multiset(PostsInOrder(Listed(names), read))
  {
    GetPostsIsReversedListing(names, read);
    ReverseMultiset(PostsInOrder(Listed(names), read));
  }

  /** The bookkeeping of `FeedItemsFromListing` over plain sequences. */
  lemma FeedFacts(sorted: seq<Post>, posts: seq<Post>)
    requires NewestFirst(sorted) && multiset(sorted) == multiset(posts)
    ensures var items := ItemsFor(sorted);
      && |items| == |posts|
      && (forall i, j :: 0 <= i < j < |items| ==> items[i].date >= items[j].date)
      && (forall k :: 0 <= k < |items| ==> items[k] == ItemFor(sorted[k]))
  {
    assert |sorted| == |multiset(sorted)| == |multiset(posts)| == |posts|;
    ItemsNewestFirst(sorted);
  }

  /** The items of newest-first posts are newest first. */
  lemma ItemsNewestFirst(sorted: seq<Post>)
    requires NewestFirst(sorted)
    ensures var items := ItemsFor(sorted);
      forall i, j :: 0 <= i < j < |items| ==> items[i].date >= items[j].date
  {
  }

  // ---------------------------------------------------------------------
  // The feed object and the script
  // ---------------------------------------------------------------------

  class Feed {
    const channel: Channel
    var items: seq<Item>

    constructor (channel: Channel)
      ensures this.channel == channel && items == []
    {
      this.channel := channel;
      items := [];
    }

    /** `feed.item(...)`: one more item at the end. */
    method AddItem(it: Item)
      modifies this
      ensures items == old(items) + [it]
    {
      items := items + [it];
    }
  }

  /** The `forEach`: one item per post, in the order of `content`. */
  method AddPostItems(feed: Feed, content: seq<Post>)
    modifies feed
    ensures feed.items == old(feed.items) + ItemsFor(content)
  {
    var i := 0;
    while i < |content|
      invariant 0 <= i <= |content|
      invariant feed.items == old(feed.items) + ItemsFor(content[..i])
    {
      var url := PostsPrefix + content[i].slug;
      feed.AddItem(Item(content[i].title, content[i].subtitle, content[i].date, Author, url, url));
      assert ItemsFor(content[..i + 1]) == ItemsFor(content[..i]) + [ItemFor(content[i])];
      i := i + 1;
    }
    assert content[..i] == content;
  }

  /** The script up to the XML output: the blog's feed holding the items
      of the posts in some newest-first order; which order among equal dates
      is left open, as the script's sort leaves it. */
  method Generate(names: seq<string>, read: string -> FrontMatter) returns (feed: Feed)
    ensures fresh(feed)
    ensures feed.channel == BlogChannel
    ensures exists sorted :: NewestFirst(sorted) && multiset(sorted) == multiset(GetPosts(names, read))
                             && feed.items == ItemsFor(sorted)
  {
    feed := new Feed(BlogChannel);
    var content := SortByDate(GetPosts(names, read));
    AddPostItems(feed, content);
  }
}
