/**
 * The Posting concept: posts to the "Sister Circle" board, each filed
 * under one or more named circles and possibly anonymous, posts to a
 * user's "My Care Board", and the collection of circles.
 *
 * `dateUpdated` is stamped by the storage layer when a post is created; it
 * is passed in here as `now`.
 */
module Posting {
  import opened Common

  datatype SisterCirclePost = SisterCirclePost(
    id: DocId,
    author: Option<UserId>,
    username: Option<string>,
    title: string,
    content: string,
    anonymous: bool,
    circles: seq<string>,
    dateUpdated: int)

  datatype MyCareBoardPost = MyCareBoardPost(
    id: DocId,
    author: UserId,
    username: string,
    title: string,
    content: string,
    postedOnUsername: string,
    dateUpdated: int)

  datatype Circle = Circle(id: DocId, name: string)

  datatype Board = SisterCircle | MyCareBoard

  /** The circles every deployment starts with. */
  const PredefinedCircles: seq<string> := ["Fertility", "Menopause"]

  function CircleNames(circles: seq<Circle>): (names: seq<string>)
    ensures |names| == |circles|
  {
    if circles == [] then [] else CircleNames(circles[..|circles| - 1]) + [circles[|circles| - 1].name]
  }

  function SisterCirclePostId(p: SisterCirclePost): DocId { p.id }

  function MyCareBoardPostId(p: MyCareBoardPost): DocId { p.id }

  function CircleId(c: Circle): DocId { c.id }

  function DateUpdated(p: SisterCirclePost): int { p.dateUpdated }

  /** `titleContains`: case-insensitive substring search. */
  function TitleContains(title: string, search: string): (b: bool)
    ensures b ==> exists i :: OccursAt(Lower(title), Lower(search), i)
    ensures (exists i :: OccursAt(Lower(title), Lower(search), i)) ==> b
  {
    Includes(Lower(title), Lower(search))
  }

  /** The i-th name is the i-th circle's name. */
  lemma {:induction false} CircleNamesAt(circles: seq<Circle>)
    ensures forall i :: 0 <= i < |circles| ==> CircleNames(circles)[i] == circles[i].name
  {
    if circles != [] {
      CircleNamesAt(circles[..|circles| - 1]);
    }
  }

  /** The names of two runs of circles, one after the other. */
  lemma {:induction false} CircleNamesAppend(a: seq<Circle>, b: seq<Circle>)
    ensures CircleNames(a + b) == CircleNames(a) + CircleNames(b)
  {
    if b != [] {
      var init, last := b[..|b| - 1], b[|b| - 1];
      assert (a + b)[..|a + b| - 1] == a + init;
      assert (a + b)[|a + b| - 1] == last;
      CircleNamesAppend(a, init);
      assert CircleNames(a + b) == CircleNames(a + init) + [last.name];
      assert CircleNames(b) == CircleNames(init) + [last.name];
    } else {
      assert a + b == a;
    }
  }

  lemma AddedNames(added: seq<Circle>, c: Circle)
    ensures CircleNames(added + [c]) == CircleNames(added) + [c.name]
  {
    assert (added + [c])[..|added|] == added;
  }

  /** No predefined circle name repeats an earlier one. */
  lemma PredefinedDistinct()
    ensures forall i :: 0 <= i < |PredefinedCircles| ==> PredefinedCircles[i] !in PredefinedCircles[..i]
  {
    assert PredefinedCircles[..1] == ["Fertility"];
  }

  /**
   * Circles `added` after `existing`, named by the new names of `names` in
   * order, keep `existing` as a prefix and leave every name of `names` present.
   */
  lemma Extended(existing: seq<Circle>, added: seq<Circle>, names: seq<string>)
    requires CircleNames(added) == NewInOrder((set n | n in CircleNames(existing)), names)
    ensures (existing + added)[..|existing|] == existing
    ensures CircleNames(existing + added) == CircleNames(existing) + NewInOrder((set n | n in CircleNames(existing)), names)
    ensures forall n :: n in names ==> n in CircleNames(existing + added)
  {
    CircleNamesAppend(existing, added);
    assert (existing + added)[..|existing|] == existing;
    AllNamesKnown(CircleNames(existing), names);
  }

  ghost function Elements(xs: seq<string>): set<string>
  {
    set x | x in xs
  }

  /**
   * The names `ensureCircles` has seen after `names[..i]`: those of `names`
   * that existed, and those it went through. One more name is in the set
   * exactly when it existed or came earlier, and is then added.
   */
  lemma SeenStep(seen: set<string>, existing: set<string>, names: seq<string>, i: nat)
    requires i < |names|
    requires seen == existing * Elements(names) + Elements(names[..i])
    ensures names[i] in seen <==> names[i] in existing || names[i] in names[..i]
    ensures (if names[i] in seen then seen else seen + {names[i]}) ==
              existing * Elements(names) + Elements(names[..i + 1])
  {
    assert names[..i + 1] == names[..i] + [names[i]];
    assert Elements(names[..i + 1]) == Elements(names[..i]) + {names[i]};
    assert names[i] in Elements(names);
  }

  /** Appending the new names of `xs` to `known` leaves every name of `xs` known. */
  lemma AllNamesKnown(known: seq<string>, xs: seq<string>)
    ensures forall n :: n in xs ==> n in known + NewInOrder((set k | k in known), xs)
  {
    NewInOrderProperties((set k | k in known), xs);
  }

  // ---------------------------------------------------------------------
  // Circles in name order (the storage layer's ascending string sort)
  // ---------------------------------------------------------------------

  /** Lexicographic order of names, character by character. */
  predicate NameLe(a: string, b: string)
  {
    a == [] || (b != [] && (a[0] < b[0] || (a[0] == b[0] && NameLe(a[1..], b[1..]))))
  }

  lemma {:induction false} NameLeTotal(a: string, b: string)
    ensures NameLe(a, b) || NameLe(b, a)
  {
    if a != [] && b != [] && a[0] == b[0] {
      NameLeTotal(a[1..], b[1..]);
    }
  }

  lemma {:induction false} NameLeTransitive(a: string, b: string, c: string)
    requires NameLe(a, b) && NameLe(b, c)
    ensures NameLe(a, c)
  {
    if a != [] && b != [] && c != [] && a[0] == b[0] && b[0] == c[0] {
      NameLeTransitive(a[1..], b[1..], c[1..]);
    }
  }

  ghost predicate SortedByName(s: seq<Circle>)
  {
    forall i, j :: 0 <= i < j < |s| ==> NameLe(s[i].name, s[j].name)
  }

  function InsertByName(s: seq<Circle>, c: Circle): (r: seq<Circle>)
    ensures multiset(r) == multiset(s) + multiset{c}
  {
    if s == [] then [c]
    else if NameLe(c.name, s[0].name) then [c] + s
    else
      assert s == [s[0]] + s[1..];
      [s[0]] + InsertByName(s[1..], c)
  }

  function SortByName(circles: seq<Circle>): (r: seq<Circle>)
    ensures multiset(r) == multiset(circles)
  {
    if circles == [] then []
    else
      assert circles == circles[..|circles| - 1] + [circles[|circles| - 1]];
      InsertByName(SortByName(circles[..|circles| - 1]), circles[|circles| - 1])
  }

  lemma {:induction false} InsertByNameElements(s: seq<Circle>, c: Circle)
    ensures multiset(InsertByName(s, c)) == multiset(s) + multiset{c}
    ensures forall x :: x in InsertByName(s, c) <==> x in s || x == c
  {
    if s != [] && !NameLe(c.name, s[0].name) {
      InsertByNameElements(s[1..], c);
      assert s == [s[0]] + s[1..];
    }
  }

  /** The head of a sorted list precedes everything in its tail with a later circle inserted. */
  lemma HeadPrecedesInsertion(s: seq<Circle>, c: Circle)
    requires SortedByName(s) && s != [] && NameLe(s[0].name, c.name)
    ensures forall j :: 0 <= j < |InsertByName(s[1..], c)| ==> NameLe(s[0].name, InsertByName(s[1..], c)[j].name)
  {
    var rest := InsertByName(s[1..], c);
    InsertByNameElements(s[1..], c);
    forall j | 0 <= j < |rest| ensures NameLe(s[0].name, rest[j].name) {
      assert rest[j] in rest;
      if rest[j] != c {
        assert rest[j] in s[1..];
        var k :| 0 <= k < |s[1..]| && s[1..][k] == rest[j];
        assert s[k + 1] == rest[j];
      }
    }
  }

  lemma {:induction false} InsertByNameSorted(s: seq<Circle>, c: Circle)
    requires SortedByName(s)
    ensures SortedByName(InsertByName(s, c))
  {
    if s == [] {
    } else if NameLe(c.name, s[0].name) {
      forall j | 0 < j < |s| ensures NameLe(c.name, s[j].name) {
        NameLeTransitive(c.name, s[0].name, s[j].name);
      }
    } else {
      NameLeTotal(c.name, s[0].name);
      var rest := InsertByName(s[1..], c);
      InsertByNameSorted(s[1..], c);
      HeadPrecedesInsertion(s, c);
      var r := [s[0]] + rest;
      forall i, j | 0 <= i < j < |r| ensures NameLe(r[i].name, r[j].name) {
        if i > 0 {
          assert r[i] == rest[i - 1] && r[j] == rest[j - 1];
        } else {
          assert r[j] == rest[j - 1];
        }
      }
    }
  }

  /** The circles sorted by name are in ascending name order and are exactly the stored circles. */
  lemma {:induction false} SortByNameCorrect(circles: seq<Circle>)
    ensures SortedByName(SortByName(circles))
    ensures multiset(SortByName(circles)) == multiset(circles)
  {
    if circles != [] {
      var init := circles[..|circles| - 1];
      assert circles == init + [circles[|circles| - 1]];
      SortByNameCorrect(init);
      InsertByNameElements(SortByName(init), circles[|circles| - 1]);
      InsertByNameSorted(SortByName(init), circles[|circles| - 1]);
    }
  }

  /** The posts sorted by `dateUpdated`, newest first, are exactly the stored posts. */
  lemma NewestFirst(posts: seq<SisterCirclePost>)
    ensures SortedDescBy(SortDescBy(posts, DateUpdated), DateUpdated)
    ensures multiset(SortDescBy(posts, DateUpdated)) == multiset(posts)
  {
    SortDescByCorrect(posts, DateUpdated);
  }

  // ---------------------------------------------------------------------
  // The concept
  // ---------------------------------------------------------------------

  /** Every stored post has its own id within its board, and all are below `bound`. */
  ghost predicate PostsBelow(sisterCirclePosts: seq<SisterCirclePost>, myCareBoardPosts: seq<MyCareBoardPost>, bound: nat)
  {
    && (forall i :: 0 <= i < |sisterCirclePosts| ==> sisterCirclePosts[i].id < bound)
    && (forall i :: 0 <= i < |myCareBoardPosts| ==> myCareBoardPosts[i].id < bound)
    && Distinct(sisterCirclePosts, SisterCirclePostId)
    && Distinct(myCareBoardPosts, MyCareBoardPostId)
  }

  lemma PostsBelowLater(sisterCirclePosts: seq<SisterCirclePost>, myCareBoardPosts: seq<MyCareBoardPost>, a: nat, b: nat)
    requires PostsBelow(sisterCirclePosts, myCareBoardPosts, a) && a <= b
    ensures PostsBelow(sisterCirclePosts, myCareBoardPosts, b)
  {
  }

  ghost predicate CirclesBelow(circles: seq<Circle>, bound: nat)
  {
    forall i :: 0 <= i < |circles| ==> circles[i].id < bound
  }

  class PostingConcept {
    var sisterCirclePosts: seq<SisterCirclePost>
    var myCareBoardPosts: seq<MyCareBoardPost>
    var circles: seq<Circle>
    var nextId: DocId

    /**
     * Every stored post has its own id within its board, and every stored
     * document an id below the next fresh one (circles are only ever looked
     * up by name).
     */
    ghost predicate Valid()
      reads this
    {
      PostsBelow(sisterCirclePosts, myCareBoardPosts, nextId) && CirclesBelow(circles, nextId)
    }

    /** A new concept over empty collections, seeded with the predefined circles. */
    constructor ()
      ensures Valid()
      ensures sisterCirclePosts == [] && myCareBoardPosts == []
      ensures CircleNames(circles) == PredefinedCircles
    {
      sisterCirclePosts, myCareBoardPosts, circles, nextId := [], [], [], 0;
      new;
      assert CircleNameSet() == {};
      InitializeDefaultCircles();
      calc {
        NewInOrder({}, PredefinedCircles);
        { assert PredefinedCircles[..2] == PredefinedCircles; NewInOrderStep({}, PredefinedCircles, 1); }
        NewInOrder({}, PredefinedCircles[..1]) + ["Menopause"];
        { NewInOrderStep({}, PredefinedCircles, 0); assert PredefinedCircles[..0] == []; }
        ["Fertility", "Menopause"];
      }
    }

    function CircleNameSet(): set<string>
      reads this
    {
      set name | name in CircleNames(circles)
    }

    /** Stores a new circle with that name under a fresh id. */
    method CreateCircle(name: string)
      requires CirclesBelow(circles, nextId)
      modifies this
      ensures CirclesBelow(circles, nextId)
      ensures sisterCirclePosts == old(sisterCirclePosts) && myCareBoardPosts == old(myCareBoardPosts)
      ensures circles == old(circles) + [Circle(old(nextId), name)]
      ensures CircleNames(circles) == old(CircleNames(circles)) + [name]
      ensures nextId == old(nextId) + 1
    {
      circles := circles + [Circle(nextId, name)];
      nextId := nextId + 1;
      assert circles[..|circles| - 1] == old(circles);
    }

    /**
     * `initializeDefaultCircles`: creates each predefined circle that is not
     * yet among the stored ones, and no other.
     */
    method InitializeDefaultCircles()
      requires Valid()
      modifies this
      ensures Valid()
      ensures sisterCirclePosts == old(sisterCirclePosts) && myCareBoardPosts == old(myCareBoardPosts)
      ensures |circles| >= |old(circles)| && circles[..|old(circles)|] == old(circles)
      ensures CircleNames(circles) == old(CircleNames(circles)) + NewInOrder(old(CircleNameSet()), PredefinedCircles)
      ensures forall name :: name in PredefinedCircles ==> name in CircleNames(circles)
    {
      PredefinedDistinct();
      CreateMissingCircles(PredefinedCircles);
    }

    /**
     * The loop of `initializeDefaultCircles`, over distinct names: the
     * stored circles are read once, and each name none of them has is
     * created.
     */
    method CreateMissingCircles(names: seq<string>)
      requires Valid()
      requires forall i :: 0 <= i < |names| ==> names[i] !in names[..i]
      modifies this
      ensures Valid()
      ensures sisterCirclePosts == old(sisterCirclePosts) && myCareBoardPosts == old(myCareBoardPosts)
      ensures |circles| >= |old(circles)| && circles[..|old(circles)|] == old(circles)
      ensures CircleNames(circles) == old(CircleNames(circles)) + NewInOrder(old(CircleNameSet()), names)
      ensures forall name :: name in names ==> name in CircleNames(circles)
    {
      var existingCircles := circles;
      ghost var existingNames := CircleNameSet();
      ghost var added: seq<Circle> := [];
      var i := 0;
      while i < |names|
        invariant 0 <= i <= |names|
        invariant CirclesBelow(circles, nextId) && nextId >= old(nextId)
        invariant sisterCirclePosts == old(sisterCirclePosts) && myCareBoardPosts == old(myCareBoardPosts)
        invariant circles == existingCircles + added
        invariant CircleNames(added) == NewInOrder(existingNames, names[..i])
      {
        var circle := names[i];
        NewInOrderStep(existingNames, names, i);
        if circle !in CircleNames(existingCircles) {
          CreateCircle(circle);
          ghost var c := circles[|circles| - 1];
          assert circles == existingCircles + (added + [c]);
          AddedNames(added, c);
          added := added + [c];
        }
        i := i + 1;
      }
      assert names[..i] == names;
      Extended(existingCircles, added, names);
      PostsBelowLater(sisterCirclePosts, myCareBoardPosts, old(nextId), nextId);
    }

    /**
     * `ensureCircles`: creates, once each and in order of first mention,
     * the named circles that do not exist yet, and returns the names unchanged.
     */
    method EnsureCircles(names: seq<string>) returns (r: seq<string>)
      requires Valid()
      modifies this
      ensures Valid()
      ensures r == names
      ensures sisterCirclePosts == old(sisterCirclePosts) && myCareBoardPosts == old(myCareBoardPosts)
      ensures |circles| >= |old(circles)| && circles[..|old(circles)|] == old(circles)
      ensures CircleNames(circles) == old(CircleNames(circles)) + NewInOrder(old(CircleNameSet()), names)
      ensures forall name :: name in names ==> name in CircleNames(circles)
    {
      var existingNamesSet := set name | name in CircleNames(circles) && name in names;
      ghost var existingCircles := circles;
      ghost var existingNames := CircleNameSet();
      ghost var added: seq<Circle> := [];
      assert names[..0] == [];
      assert existingNamesSet == existingNames * Elements(names) + Elements(names[..0]);
      var i := 0;
      while i < |names|
        invariant 0 <= i <= |names|
        invariant CirclesBelow(circles, nextId) && nextId >= old(nextId)
        invariant sisterCirclePosts == old(sisterCirclePosts) && myCareBoardPosts == old(myCareBoardPosts)
        invariant circles == existingCircles + added
        invariant CircleNames(added) == NewInOrder(existingNames, names[..i])
        invariant existingNamesSet == existingNames * Elements(names) + Elements(names[..i])
      {
        var circle := names[i];
        NewInOrderStep(existingNames, names, i);
        SeenStep(existingNamesSet, existingNames, names, i);
        if circle !in existingNamesSet {
          CreateCircle(circle);
          ghost var c := circles[|circles| - 1];
          assert circles == existingCircles + (added + [c]);
          AddedNames(added, c);
          added := added + [c];
          existingNamesSet := existingNamesSet + {circle};
        }
        i := i + 1;
      }
      assert names[..i] == names;
      Extended(existingCircles, added, names);
      PostsBelowLater(sisterCirclePosts, myCareBoardPosts, old(nextId), nextId);
      r := names;
    }

    /**
     * `createSisterCirclePost`: makes sure the circles exist, then stores
     * the post, without a username when it is anonymous.
     */
    method CreateSisterCirclePost(author: Option<UserId>, username: Option<string>, title: string, content: string,
                                  anonymous: bool, circleNames: seq<string>, now: int) returns (post: SisterCirclePost)
      requires Valid()
      modifies this
      ensures Valid()
      ensures post.author == author && post.title == title && post.content == content && post.anonymous == anonymous
      ensures post.username == if anonymous then None else username
      ensures post.circles == circleNames
      ensures post.dateUpdated == now
      ensures forall k :: 0 <= k < |old(sisterCirclePosts)| ==> old(sisterCirclePosts)[k].id != post.id
      ensures sisterCirclePosts == old(sisterCirclePosts) + [post]
      ensures myCareBoardPosts == old(myCareBoardPosts)
      ensures CircleNames(circles) == old(CircleNames(circles)) + NewInOrder(old(CircleNameSet()), circleNames)
    {
      var validatedCircles := EnsureCircles(circleNames);
      post := SisterCirclePost(nextId, author, if anonymous then None else username, title, content, anonymous,
                               validatedCircles, now);
      sisterCirclePosts := sisterCirclePosts + [post];
      nextId := nextId + 1;
    }

    /** `createMyCareBoardPost`: stores the post. */
    method CreateMyCareBoardPost(author: UserId, username: string, title: string, content: string,
                                 postedOnUsername: string, now: int) returns (post: MyCareBoardPost)
      requires Valid()
      modifies this
      ensures Valid()
      ensures post == MyCareBoardPost(post.id, author, username, title, content, postedOnUsername, now)
      ensures forall k :: 0 <= k < |old(myCareBoardPosts)| ==> old(myCareBoardPosts)[k].id != post.id
      ensures myCareBoardPosts == old(myCareBoardPosts) + [post]
      ensures sisterCirclePosts == old(sisterCirclePosts) && circles == old(circles)
    {
      post := MyCareBoardPost(nextId, author, username, title, content, postedOnUsername, now);
      myCareBoardPosts := myCareBoardPosts + [post];
      nextId := nextId + 1;
    }

    /** `getAllCircles`: every circle, in ascending name order. */
    function GetAllCircles(): (r: seq<Circle>)
      reads this
      ensures SortedByName(r)
      ensures multiset(r) == multiset(circles)
    {
      SortByNameCorrect(circles);
      SortByName(circles)
    }

    /** `getAllSisterCirclePosts`: every post, most recently updated first. */
    function GetAllSisterCirclePosts(): (r: seq<SisterCirclePost>)
      reads this
      ensures SortedDescBy(r, DateUpdated)
      ensures multiset(r) == multiset(sisterCirclePosts)
    {
      NewestFirst(sisterCirclePosts);
      SortDescBy(sisterCirclePosts, DateUpdated)
    }

    /**
     * `getSisterCirclePostsByCircle`: fails when no circle has that name,
     * otherwise the posts filed under it.
     */
    function GetSisterCirclePostsByCircle(circleName: string): (r: Result<seq<SisterCirclePost>>)
      reads this
      ensures r.Err? <==> forall c :: c in circles ==> c.name != circleName
      ensures r.Err? ==> r.error == Failure("Circle with name " + circleName + " not found")
      ensures r.Ok? ==> forall p :: p in r.value <==> p in sisterCirclePosts && circleName in p.circles
    {
      if !exists c :: c in circles && c.name == circleName then
        Err(Failure("Circle with name " + circleName + " not found"))
      else
        var inCircle := (p: SisterCirclePost) => circleName in p.circles;
        FilterMembers(sisterCirclePosts, inCircle);
        Ok(Filter(sisterCirclePosts, inCircle))
    }

    /** `getSisterCirclePostsByAuthor`: the posts the user wrote under their name. */
    function GetSisterCirclePostsByAuthor(author: UserId): (r: seq<SisterCirclePost>)
      reads this
      ensures forall p :: p in r <==> p in sisterCirclePosts && p.author == Some(author)
    {
      var byAuthor := (p: SisterCirclePost) => p.author == Some(author);
      FilterMembers(sisterCirclePosts, byAuthor);
      Filter(sisterCirclePosts, byAuthor)
    }

    /**
     * `getSisterCirclePostsByTitle`: fails on an empty search string,
     * otherwise the posts whose title contains it, ignoring case.
     */
    function GetSisterCirclePostsByTitle(title: string): (r: Result<seq<SisterCirclePost>>)
      reads this
      ensures r.Err? <==> title == ""
      ensures r.Err? ==> r.error == Failure("Title search string cannot be empty")
      ensures r.Ok? ==> forall p :: p in r.value <==> p in sisterCirclePosts && TitleContains(p.title, title)
    {
      if title == [] then Err(Failure("Title search string cannot be empty"))
      else
        var matches := (p: SisterCirclePost) => TitleContains(p.title, title);
        FilterMembers(sisterCirclePosts, matches);
        Ok(Filter(sisterCirclePosts, matches))
    }

    /** `getMyCareBoardPostsByDestinationUsername`: the posts on that user's board. */
    function GetMyCareBoardPostsByDestinationUsername(postedOnUsername: string): (r: seq<MyCareBoardPost>)
      reads this
      ensures forall p :: p in r <==> p in myCareBoardPosts && p.postedOnUsername == postedOnUsername
    {
      var onBoard := (p: MyCareBoardPost) => p.postedOnUsername == postedOnUsername;
      FilterMembers(myCareBoardPosts, onBoard);
      Filter(myCareBoardPosts, onBoard)
    }

    /** `getMyCareBoardPostsByAuthor`: the care-board posts the user wrote. */
    function GetMyCareBoardPostsByAuthor(author: UserId): (r: seq<MyCareBoardPost>)
      reads this
      ensures forall p :: p in r <==> p in myCareBoardPosts && p.author == author
    {
      var byAuthor := (p: MyCareBoardPost) => p.author == author;
      FilterMembers(myCareBoardPosts, byAuthor);
      Filter(myCareBoardPosts, byAuthor)
    }

    /** `deleteSisterCirclePost`: removes the post with that id, if any, and nothing else. */
    method DeleteSisterCirclePost(id: DocId)
      requires Valid()
      modifies this
      ensures Valid()
      ensures forall k :: 0 <= k < |sisterCirclePosts| ==> sisterCirclePosts[k].id != id
      ensures FindIndex(old(sisterCirclePosts), SisterCirclePostId, id).None? ==> sisterCirclePosts == old(sisterCirclePosts)
      ensures FindIndex(old(sisterCirclePosts), SisterCirclePostId, id).Some? ==>
                sisterCirclePosts == RemoveAt(old(sisterCirclePosts), FindIndex(old(sisterCirclePosts), SisterCirclePostId, id).value)
      ensures myCareBoardPosts == old(myCareBoardPosts) && circles == old(circles)
    {
      var found := FindIndex(sisterCirclePosts, SisterCirclePostId, id);
      if found.Some? {
        sisterCirclePosts := RemoveAt(sisterCirclePosts, found.value);
      }
    }

    /** `deleteMyCareBoardPost`: removes the post with that id, if any, and nothing else. */
    method DeleteMyCareBoardPost(id: DocId)
      requires Valid()
      modifies this
      ensures Valid()
      ensures forall k :: 0 <= k < |myCareBoardPosts| ==> myCareBoardPosts[k].id != id
      ensures FindIndex(old(myCareBoardPosts), MyCareBoardPostId, id).None? ==> myCareBoardPosts == old(myCareBoardPosts)
      ensures FindIndex(old(myCareBoardPosts), MyCareBoardPostId, id).Some? ==>
                myCareBoardPosts == RemoveAt(old(myCareBoardPosts), FindIndex(old(myCareBoardPosts), MyCareBoardPostId, id).value)
      ensures sisterCirclePosts == old(sisterCirclePosts) && circles == old(circles)
    {
      var found := FindIndex(myCareBoardPosts, MyCareBoardPostId, id);
      if found.Some? {
        myCareBoardPosts := RemoveAt(myCareBoardPosts, found.value);
      }
    }

    /**
     * `assertAuthorIsUser`: NotFoundError when the board has no post with
     * that id, PostAuthorNotMatchError when the post has no author or
     * another author, success otherwise.
     */
    function AssertAuthorIsUser(id: DocId, user: UserId, board: Board): (r: Outcome)
      reads this
      ensures board == SisterCircle ==>
                match FindIndex(sisterCirclePosts, SisterCirclePostId, id)
                case None => r == Fail(NotFound)
                case Some(k) => (r == Pass <==> sisterCirclePosts[k].author == Some(user))
                                && (r != Pass ==> r == Fail(PostAuthorNotMatch))
      ensures board == MyCareBoard ==>
                match FindIndex(myCareBoardPosts, MyCareBoardPostId, id)
                case None => r == Fail(NotFound)
                case Some(k) => (r == Pass <==> myCareBoardPosts[k].author == user)
                                && (r != Pass ==> r == Fail(PostAuthorNotMatch))
    {
      match board
      case SisterCircle =>
        (match FindIndex(sisterCirclePosts, SisterCirclePostId, id)
         case None => Fail(NotFound)
         case Some(k) =>
           var author := sisterCirclePosts[k].author;
           if author.None? || author.value != user then Fail(PostAuthorNotMatch) else Pass)
      case MyCareBoard =>
        (match FindIndex(myCareBoardPosts, MyCareBoardPostId, id)
         case None => Fail(NotFound)
         case Some(k) => if myCareBoardPosts[k].author != user then Fail(PostAuthorNotMatch) else Pass)
    }
  }
}
