/**
 * Response shaping: how the server turns stored posts, friend requests and
 * circles into what the front end receives. The account service that maps
 * user ids to usernames is not part of this model; it is passed in as a
 * function `idsToUsernames` from the list of ids asked for to the list of
 * usernames returned.
 */
module Responses {
  import opened Common
  import Posting

  /** A post of either board. */
  datatype AnyPost =
    | SisterCirclePost(sisterCirclePost: Posting.SisterCirclePost)
    | MyCareBoardPost(myCareBoardPost: Posting.MyCareBoardPost)

  /** The author of a post; anonymous Sister Circle posts have none. */
  function Author(p: AnyPost): Option<UserId>
  {
    match p
    case SisterCirclePost(s) => s.author
    case MyCareBoardPost(m) => Some(m.author)
  }

  // ---------------------------------------------------------------------
  // post
  // ---------------------------------------------------------------------

  datatype PostView =
    | NullPost                                           // the input was null and is returned as is
    | PostWithoutAuthor(post: AnyPost)                   // a copy of an author-less post with `author: null`
    | NoView                                             // nothing is returned
    | PostWithAuthorName(post: AnyPost, author: string)  // a copy with the author's username in place of the id

  /** `Responses.post`. */
  function Post(post: Option<AnyPost>): (r: PostView)
    ensures post.None? <==> r == NullPost
    ensures post.Some? && Author(post.value).None? ==> r == PostWithoutAuthor(post.value)
    ensures post.Some? && Author(post.value).Some? ==> r == NoView
  {
    match post
    case None => NullPost
    case Some(p) => if Author(p).None? then PostWithoutAuthor(p) else NoView
  }

  /**
   * `Responses.post` as its comment describes it: an authored post comes
   * back with the username `authorUsername` that the account service
   * reports for its author.
   */
  function PostAsIntended(post: Option<AnyPost>, authorUsername: string): (r: PostView)
    ensures r != NoView
  {
    match post
    case None => NullPost
    case Some(p) => if Author(p).None? then PostWithoutAuthor(p) else PostWithAuthorName(p, authorUsername)
  }

  // ---------------------------------------------------------------------
  // posts
  // ---------------------------------------------------------------------

  datatype PostWithAuthor = PostWithAuthor(post: AnyPost, authorUsername: Option<string>)

  /** The non-null authors of the posts, in order: the ids whose usernames are requested. */
  function AuthorIds(posts: seq<AnyPost>): (ids: seq<UserId>)
    ensures |ids| <= |posts|
  {
    if posts == [] then []
    else
      var p := posts[|posts| - 1];
      AuthorIds(posts[..|posts| - 1]) + (if Author(p).Some? then [Author(p).value] else [])
  }

  /**
   * What `posts` returns given the usernames fetched for `AuthorIds(posts)`:
   * an author-less post is paired with null; the k-th authored post is
   * paired with the k-th username, and dropped when that username is
   * missing or empty.
   */
  function Shaped(posts: seq<AnyPost>, authors: seq<string>): (r: seq<PostWithAuthor>)
    ensures |r| <= |posts|
  {
    if posts == [] then []
    else
      var init, p := posts[..|posts| - 1], posts[|posts| - 1];
      var k := |AuthorIds(init)|;
      Shaped(init, authors)
        + (if Author(p).None? then [PostWithAuthor(p, None)]
           else if k < |authors| && authors[k] != "" then [PostWithAuthor(p, Some(authors[k]))]
           else [])
  }

  function Reverse<T>(s: seq<T>): (r: seq<T>)
    ensures |r| == |s|
    ensures forall i :: 0 <= i < |s| ==> r[i] == s[|s| - 1 - i]
  {
    if s == [] then [] else Reverse(s[1..]) + [s[0]]
  }

  /**
   * `Responses.posts`: fetches the usernames of the non-null authors, then
   * walks the posts, popping one username (from the reversed list) per
   * authored post.
   */
  method Posts(posts: seq<AnyPost>, idsToUsernames: seq<UserId> -> seq<string>) returns (result: seq<PostWithAuthor>)
    ensures result == Shaped(posts, idsToUsernames(AuthorIds(posts)))
  {
    var usernamesToGet := AuthorIds(posts);
    var authors := idsToUsernames(usernamesToGet);
    ghost var fetched := authors;
    authors := Reverse(authors);

    result := [];
    var i := 0;
    while i < |posts|
      invariant 0 <= i <= |posts|
      invariant result == Shaped(posts[..i], fetched)
      invariant |authors| == if |AuthorIds(posts[..i])| < |fetched| then |fetched| - |AuthorIds(posts[..i])| else 0
      invariant forall j :: 0 <= j < |authors| ==> authors[j] == fetched[|fetched| - 1 - j]
    {
      var post := posts[i];
      ShapedStep(posts, fetched, i);
      if Author(post).None? {
        result := result + [PostWithAuthor(post, None)];
      } else if |authors| > 0 {
        var nextAuthor := authors[|authors| - 1];
        authors := authors[..|authors| - 1];
        if nextAuthor != "" {
          result := result + [PostWithAuthor(post, Some(nextAuthor))];
        }
      }
      i := i + 1;
    }
    assert posts[..i] == posts;
  }

  /** The shaped list and the author ids after one more post. */
  lemma ShapedStep(posts: seq<AnyPost>, authors: seq<string>, i: nat)
    requires i < |posts|
    ensures AuthorIds(posts[..i + 1]) ==
              AuthorIds(posts[..i]) + (if Author(posts[i]).Some? then [Author(posts[i]).value] else [])
    ensures var k := |AuthorIds(posts[..i])|;
            Shaped(posts[..i + 1], authors) ==
              Shaped(posts[..i], authors)
                + (if Author(posts[i]).None? then [PostWithAuthor(posts[i], None)]
                   else if k < |authors| && authors[k] != "" then [PostWithAuthor(posts[i], Some(authors[k]))]
                   else [])
  {
    assert posts[..i + 1][..i] == posts[..i];
  }

  /**
   * `post` and `posts` agree on which posts have no author: such a post is
   * the one `post` copies and the one `posts` pairs with null.
   */
  lemma PostAgreesWithPosts(p: AnyPost, authors: seq<string>)
    ensures Post(Some(p)).PostWithoutAuthor? <==> Shaped([p], authors) == [PostWithAuthor(p, None)]
  {
    assert [p][..0] == [];
    assert AuthorIds([]) == [];
    assert Shaped([], authors) == [];
    if Author(p).Some? {
      assert Shaped([p], authors) == if 0 < |authors| && authors[0] != "" then [PostWithAuthor(p, Some(authors[0]))] else [];
    }
  }

  /**
   * As written, `post` looks up the author of an authored post and then
   * returns nothing, although `posts` returns the same post paired with its
   * author's username.
   */
  lemma AuthoredPostLost(p: AnyPost, authorUsername: string)
    requires Author(p).Some? && authorUsername != ""
    ensures Post(Some(p)) == NoView
    ensures Shaped([p], [authorUsername]) == [PostWithAuthor(p, Some(authorUsername))]
  {
    assert [p][..0] == [];
    assert AuthorIds([]) == [];
    assert Shaped([], [authorUsername]) == [];
  }

  /**
   * The intended `post` shows every post the way `posts` shows it alone:
   * null stays null, an author-less post gets no author, and an authored
   * post gets the username fetched for its author.
   */
  lemma PostAsIntendedAgreesWithPosts(p: AnyPost, authorUsername: string)
    requires authorUsername != ""
    ensures PostAsIntended(None, authorUsername) == NullPost
    ensures var view := PostAsIntended(Some(p), authorUsername);
            && (Author(p).None? ==> view == PostWithoutAuthor(p) && Shaped([p], [authorUsername]) == [PostWithAuthor(p, None)])
            && (Author(p).Some? ==>
                  view == PostWithAuthorName(p, authorUsername) &&
                  Shaped([p], [authorUsername]) == [PostWithAuthor(p, Some(authorUsername))])
  {
    assert [p][..0] == [];
    assert AuthorIds([]) == [];
    assert Shaped([], [authorUsername]) == [];
  }

  /**
   * Every entry of the shaped list is one of the posts, paired with null
   * exactly when the post has no author and otherwise with a non-empty
   * username; the list is no longer than the input.
   */
  lemma {:induction false} ShapedEntries(posts: seq<AnyPost>, authors: seq<string>)
    ensures |Shaped(posts, authors)| <= |posts|
    ensures forall e :: e in Shaped(posts, authors) ==>
              && e.post in posts
              && (e.authorUsername.None? <==> Author(e.post).None?)
              && (e.authorUsername.Some? ==> e.authorUsername.value != "")
  {
    if posts != [] {
      var init := posts[..|posts| - 1];
      assert posts == init + [posts[|posts| - 1]];
      ShapedEntries(init, authors);
    }
  }

  /** The k-th author id is the author of the post preceded by k authored posts. */
  lemma {:induction false} AuthorIdsAt(posts: seq<AnyPost>, i: nat)
    requires i < |posts| && Author(posts[i]).Some?
    ensures |AuthorIds(posts[..i])| < |AuthorIds(posts)|
    ensures AuthorIds(posts)[|AuthorIds(posts[..i])|] == Author(posts[i]).value
  {
    var init := posts[..|posts| - 1];
    if i == |posts| - 1 {
      assert posts[..i] == init;
    } else {
      assert posts[..i] == init[..i];
      AuthorIdsAt(init, i);
    }
  }

  /**
   * When every requested id comes back with a non-empty username, no post
   * is dropped: the i-th entry is the i-th post, paired with null or with
   * the username fetched for its author (the one at the same place in
   * `AuthorIds(posts)`, see `AuthorIdsAt`).
   */
  lemma {:induction false} NothingDropped(posts: seq<AnyPost>, authors: seq<string>)
    requires |AuthorIds(posts)| <= |authors|
    requires forall k :: 0 <= k < |authors| ==> authors[k] != ""
    ensures |Shaped(posts, authors)| == |posts|
    ensures forall i :: 0 <= i < |posts| ==>
              && Shaped(posts, authors)[i].post == posts[i]
              && (Author(posts[i]).None? ==> Shaped(posts, authors)[i].authorUsername.None?)
              && (Author(posts[i]).Some? ==>
                    && |AuthorIds(posts[..i])| < |authors|
                    && Shaped(posts, authors)[i].authorUsername == Some(authors[|AuthorIds(posts[..i])|]))
  {
    if posts != [] {
      var n := |posts|;
      var init := posts[..n - 1];
      NothingDropped(init, authors);
      forall i | 0 <= i < n - 1
        ensures posts[..i] == init[..i]
      {
      }
      assert posts[..n - 1] == init;
    }
  }

  // ---------------------------------------------------------------------
  // friendRequests
  // ---------------------------------------------------------------------

  /** A friend request; `details` stands for the fields other than the two user ids. */
  datatype FriendRequest<Details> = FriendRequest(from: UserId, to: UserId, details: Details)

  /** The request as sent to the front end: usernames in place of the ids (absent when not returned). */
  datatype FriendRequestView<Details> = FriendRequestView(from: Option<string>, to: Option<string>, details: Details)

  function Froms<D>(requests: seq<FriendRequest<D>>): (r: seq<UserId>)
    ensures |r| == |requests| && forall i :: 0 <= i < |requests| ==> r[i] == requests[i].from
  {
    seq(|requests|, i requires 0 <= i < |requests| => requests[i].from)
  }

  function Tos<D>(requests: seq<FriendRequest<D>>): (r: seq<UserId>)
    ensures |r| == |requests| && forall i :: 0 <= i < |requests| ==> r[i] == requests[i].to
  {
    seq(|requests|, i requires 0 <= i < |requests| => requests[i].to)
  }

  /** `usernames[i]`, which is `undefined` past the end. */
  function At(usernames: seq<string>, i: nat): Option<string>
  {
    if i < |usernames| then Some(usernames[i]) else None
  }

  /**
   * `Responses.friendRequests`: one lookup for all senders followed by all
   * recipients; request i takes its sender's name from place i and its
   * recipient's from place i + n.
   */
  function FriendRequests<D>(requests: seq<FriendRequest<D>>, idsToUsernames: seq<UserId> -> seq<string>)
    : (r: seq<FriendRequestView<D>>)
    ensures |r| == |requests|
    ensures forall i :: 0 <= i < |requests| ==> r[i].details == requests[i].details
  {
    var usernames := idsToUsernames(Froms(requests) + Tos(requests));
    seq(|requests|, i requires 0 <= i < |requests| =>
      FriendRequestView(At(usernames, i), At(usernames, i + |requests|), requests[i].details))
  }

  /**
   * When the lookup answers each id with that user's name, every request
   * shows its own sender's and its own recipient's name.
   */
  lemma FriendRequestsNamed<D>(requests: seq<FriendRequest<D>>, idsToUsernames: seq<UserId> -> seq<string>,
                               name: UserId -> string)
    requires forall ids :: |idsToUsernames(ids)| == |ids|
    requires forall ids, j :: 0 <= j < |ids| ==> idsToUsernames(ids)[j] == name(ids[j])
    ensures forall i :: 0 <= i < |requests| ==>
              && FriendRequests(requests, idsToUsernames)[i].from == Some(name(requests[i].from))
              && FriendRequests(requests, idsToUsernames)[i].to == Some(name(requests[i].to))
  {
    var ids := Froms(requests) + Tos(requests);
    forall i | 0 <= i < |requests|
      ensures ids[i] == requests[i].from && ids[i + |requests|] == requests[i].to
    {
    }
  }

  // ---------------------------------------------------------------------
  // circles
  // ---------------------------------------------------------------------

  datatype CircleView = CircleView(id: string, name: string)

  /** `Responses.circles`: each circle as its id in text form and its name, in order. */
  function Circles(circles: seq<Posting.Circle>, idToString: DocId -> string): (r: seq<CircleView>)
    ensures |r| == |circles|
    ensures forall i :: 0 <= i < |circles| ==> r[i].id == idToString(circles[i].id) && r[i].name == circles[i].name
  {
    seq(|circles|, i requires 0 <= i < |circles| => CircleView(idToString(circles[i].id), circles[i].name))
  }

  /** Circles with distinct ids keep distinct ids in text form, and the names are listed unchanged. */
  lemma CircleViews(circles: seq<Posting.Circle>, idToString: DocId -> string)
    requires forall a, b :: idToString(a) == idToString(b) ==> a == b
    requires Distinct(circles, Posting.CircleId)
    ensures forall i, j :: 0 <= i < j < |circles| ==> Circles(circles, idToString)[i].id != Circles(circles, idToString)[j].id
    ensures forall i :: 0 <= i < |circles| ==> Circles(circles, idToString)[i].name == Posting.CircleNames(circles)[i]
  {
    var r := Circles(circles, idToString);
    Posting.CircleNamesAt(circles);
    forall i, j | 0 <= i < j < |circles| ensures r[i].id != r[j].id {
      assert Posting.CircleId(circles[i]) != Posting.CircleId(circles[j]);
    }
  }
}
