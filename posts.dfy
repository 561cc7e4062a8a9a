/** The in-memory post list of lab02's `backend/handlers_auth.rs`: creating
    a post from a form with an optional JPEG upload, and toggling its
    like/dislike state. */
module Posts {
  import opened Wrappers
  import opened Text

  /** A version-4 UUID. */
  datatype Uuid = Uuid(value: nat)

  /** Rust's `i32`. */
  newtype Int32 = x: int | -0x8000_0000 <= x < 0x8000_0000

  datatype Post = Post(id: Uuid, content: string, imagePath: Option<string>, likes: Int32)

  // ---------------------------------------------------------------------
  // Likes
  // ---------------------------------------------------------------------

  datatype Vote = Like | Dislike

  /** The votes the handler understands. */
  function ParseVote(action: string): (v: Option<Vote>)
    ensures v == Some(Like) <==> action == "like"
    ensures v == Some(Dislike) <==> action == "dislike"
  {
    if action == "like" then Some(Like)
    else if action == "dislike" then Some(Dislike)
    else None
  }

  /** A like cancels a previous like and otherwise sets it; a dislike
      cancels a previous dislike and otherwise sets it. */
  function Toggle(v: Vote, likes: Int32): (r: Int32)
    ensures r == -1 || r == 0 || r == 1
  {
    match v
    case Like => if likes == 1 then 0 else 1
    case Dislike => if likes == -1 then 0 else -1
  }

  /** The outcome of each vote: a like undoes a like, a dislike undoes a
      dislike, and any other state takes the vote. */
  lemma ToggleRules(likes: Int32)
    ensures Toggle(Like, likes) == 1 <==> likes != 1
    ensures Toggle(Like, likes) == 0 <==> likes == 1
    ensures Toggle(Dislike, likes) == -1 <==> likes != -1
    ensures Toggle(Dislike, likes) == 0 <==> likes == -1
  {
  }

  /** Voting the same way twice, from neutral or from that vote, returns to
      the start. */
  lemma ToggleTwice(v: Vote, likes: Int32)
    requires likes == 0 || likes == (if v == Like then 1 else -1)
    ensures Toggle(v, Toggle(v, likes)) == likes
  {
  }

  /** Every post's vote state is one of dislike, neutral or like. */
  predicate VotesInRange(posts: seq<Post>) {
    forall k :: 0 <= k < |posts| ==> -1 <= posts[k].likes <= 1
  }

  /** The index of the first post with this id, as `iter_mut().find` picks it. */
  function FirstIndex(posts: seq<Post>, id: Uuid): (r: Option<nat>)
    ensures r.Some? ==> r.value < |posts| && posts[r.value].id == id
                        && forall k :: 0 <= k < r.value ==> posts[k].id != id
    ensures r.None? ==> forall k :: 0 <= k < |posts| ==> posts[k].id != id
  {
    if |posts| == 0 then None
    else if posts[0].id == id then Some(0)
    else match FirstIndex(posts[1..], id)
      case None => None
      case Some(k) => Some(k + 1)
  }

  datatype LikeError = NotFound | InvalidAction

  // ---------------------------------------------------------------------
  // Upload guard
  // ---------------------------------------------------------------------

  const MaxUploadSize: nat := 5 * 1024 * 1024
  const MaxImageWidth: nat := 1920
  const MaxImageHeight: nat := 1080

  /** What decoding the uploaded bytes yields: the dimensions, and whether
      the colour type is 8-bit RGB or RGBA. */
  datatype Decoded = Decoded(width: nat, height: nat, rgb8: bool)

  datatype UploadError = NotJpg | TooLarge | NotAnImage | DimensionsTooLarge | UnsupportedFormat

  /** The checks an uploaded file goes through, in order: the `.jpg`
      extension, the size, decoding, the dimensions, the colour type. */
  function CheckUpload(fileName: string, size: nat, image: Option<Decoded>): (r: Result<(), UploadError>)
    ensures r.Ok? <==>
              EndsWith(fileName, ".jpg") && size <= MaxUploadSize && image.Some?
              && image.value.width <= MaxImageWidth && image.value.height <= MaxImageHeight && image.value.rgb8
    ensures r == Err(NotJpg) <==> !EndsWith(fileName, ".jpg")
    ensures r == Err(TooLarge) <==> EndsWith(fileName, ".jpg") && size > MaxUploadSize
    ensures r == Err(NotAnImage) <==> EndsWith(fileName, ".jpg") && size <= MaxUploadSize && image.None?
    ensures r == Err(DimensionsTooLarge) <==>
              EndsWith(fileName, ".jpg") && size <= MaxUploadSize && image.Some?
              && (image.value.width > MaxImageWidth || image.value.height > MaxImageHeight)
    ensures r == Err(UnsupportedFormat) <==>
              EndsWith(fileName, ".jpg") && size <= MaxUploadSize && image.Some?
              && image.value.width <= MaxImageWidth && image.value.height <= MaxImageHeight && !image.value.rgb8
  {
    if !EndsWith(fileName, ".jpg") then Err(NotJpg)
    else if size > MaxUploadSize then Err(TooLarge)
    else if image.None? then Err(NotAnImage)
    else if image.value.width > MaxImageWidth || image.value.height > MaxImageHeight then Err(DimensionsTooLarge)
    else if !image.value.rgb8 then Err(UnsupportedFormat)
    else Ok(())
  }

  // ---------------------------------------------------------------------
  // Form fields
  // ---------------------------------------------------------------------

  /** A multipart form field: the text, an uploaded file, or anything else. */
  datatype Field =
    | TextField(text: string)
    | FileField(fileName: string, size: nat, image: Option<Decoded>)
    | OtherField(name: string)

  datatype CreateError = Upload(error: UploadError) | TextRequired

  /** The field is an upload that the guard rejects. */
  predicate Rejected(f: Field) {
    f.FileField? && CheckUpload(f.fileName, f.size, f.image).Err?
  }

  /** Field `k` is the first rejected upload, and it fails with `e`. */
  predicate FirstRejectionAt(fields: seq<Field>, k: nat, e: UploadError)
    requires k < |fields|
  {
    Rejected(fields[k]) && CheckUpload(fields[k].fileName, fields[k].size, fields[k].image) == Err(e)
    && forall k' :: 0 <= k' < k ==> !Rejected(fields[k'])
  }

  /** Field `k` is the last text field among the first `n`. */
  predicate LastTextAt(fields: seq<Field>, n: nat, k: nat)
    requires n <= |fields|
  {
    k < n && fields[k].TextField? && forall k' :: k < k' < n ==> !fields[k'].TextField?
  }

  /** Field `k` is the last file field among the first `n`. */
  predicate LastFileAt(fields: seq<Field>, n: nat, k: nat)
    requires n <= |fields|
  {
    k < n && fields[k].FileField? && forall k' :: k < k' < n ==> !fields[k'].FileField?
  }

  /** The text and image path gathered from the first `n` fields: the last
      text field wins, each file field must pass the guard and records the
      path it is saved at (`paths[k]` for field `k`). */
  function Collect(fields: seq<Field>, paths: seq<string>, n: nat): (r: Result<(Option<string>, Option<string>), UploadError>)
    requires n <= |fields| && |paths| == |fields|
    ensures r.Ok? <==> forall k :: 0 <= k < n && fields[k].FileField? ==>
                         CheckUpload(fields[k].fileName, fields[k].size, fields[k].image).Ok?
    ensures r.Ok? ==> (r.value.0.Some? <==> exists k :: 0 <= k < n && fields[k].TextField?)
    ensures r.Ok? ==> (r.value.1.Some? <==> exists k :: 0 <= k < n && fields[k].FileField?)
    ensures r.Ok? && r.value.0.Some? ==>
              exists k: nat :: LastTextAt(fields, n, k) && fields[k].text == r.value.0.value
    ensures r.Ok? && r.value.1.Some? ==>
              exists k: nat :: LastFileAt(fields, n, k) && paths[k] == r.value.1.value
    ensures r.Err? ==> exists k: nat :: k < n && FirstRejectionAt(fields, k, r.error)
  {
    if n == 0 then Ok((None, None))
    else
      var prev :- Collect(fields, paths, n - 1);
      match fields[n - 1]
      case TextField(t) =>
        assert LastTextAt(fields, n, n - 1);
        KeepsLastFile(fields, paths, n, prev.1);
        Ok((Some(t), prev.1))
      case FileField(name, size, image) =>
        var check := CheckUpload(name, size, image);
        if check.Err? then
          assert FirstRejectionAt(fields, n - 1, check.error);
          Err(check.error)
        else
          assert LastFileAt(fields, n, n - 1);
          KeepsLastText(fields, n, prev.0);
          Ok((prev.0, Some(paths[n - 1])))
      case OtherField(_) =>
        KeepsLastText(fields, n, prev.0);
        KeepsLastFile(fields, paths, n, prev.1);
        Ok(prev)
  }

  /** A rejected upload after an accepted prefix is the error of the whole form. */
  lemma RejectionEndsCollect(fields: seq<Field>, paths: seq<string>, i: nat)
    requires i < |fields| && |paths| == |fields|
    requires Collect(fields, paths, i).Ok? && Rejected(fields[i])
    ensures Collect(fields, paths, |fields|)
              == Err(CheckUpload(fields[i].fileName, fields[i].size, fields[i].image).error)
  {
    assert Collect(fields, paths, i + 1)
             == Err(CheckUpload(fields[i].fileName, fields[i].size, fields[i].image).error);
    CollectStopsAtError(fields, paths, i + 1, |fields|);
  }

  /** A field that is not text leaves the last text field where it was. */
  lemma KeepsLastText(fields: seq<Field>, n: nat, t: Option<string>)
    requires 0 < n <= |fields| && !fields[n - 1].TextField?
    requires t.Some? ==> exists k: nat :: LastTextAt(fields, n - 1, k) && fields[k].text == t.value
    ensures t.Some? ==> exists k: nat :: LastTextAt(fields, n, k) && fields[k].text == t.value
  {
    if t.Some? {
      var k: nat :| LastTextAt(fields, n - 1, k) && fields[k].text == t.value;
      assert LastTextAt(fields, n, k);
    }
  }

  /** A field that is not a file leaves the last file field where it was. */
  lemma KeepsLastFile(fields: seq<Field>, paths: seq<string>, n: nat, path: Option<string>)
    requires 0 < n <= |fields| && |paths| == |fields| && !fields[n - 1].FileField?
    requires path.Some? ==> exists k: nat :: LastFileAt(fields, n - 1, k) && paths[k] == path.value
    ensures path.Some? ==> exists k: nat :: LastFileAt(fields, n, k) && paths[k] == path.value
  {
    if path.Some? {
      var k: nat :| LastFileAt(fields, n - 1, k) && paths[k] == path.value;
      assert LastFileAt(fields, n, k);
    }
  }

  /** Once an upload is rejected, later fields do not matter: the error stays
      the first rejection's. */
  lemma {:induction false} CollectStopsAtError(fields: seq<Field>, paths: seq<string>, n: nat, m: nat)
    requires n <= m <= |fields| && |paths| == |fields|
    requires Collect(fields, paths, n).Err?
    ensures Collect(fields, paths, m) == Collect(fields, paths, n)
    decreases m - n
  {
    if m > n {
      CollectStopsAtError(fields, paths, n, m - 1);
    }
  }

  class PostStore {
    var posts: seq<Post>

    constructor ()
      ensures posts == []
    {
      posts := [];
    }

    /** Appends a post with no vote under the fresh id `newId` and returns it. */
    method SavePost(text: string, imagePath: Option<string>, newId: Uuid) returns (id: Uuid)
      requires forall k :: 0 <= k < |posts| ==> posts[k].id != newId
      modifies this
      ensures id == newId
      ensures posts == old(posts) + [Post(newId, text, imagePath, 0)]
      ensures VotesInRange(old(posts)) ==> VotesInRange(posts)
      ensures FirstIndex(posts, id) == Some(|old(posts)|)
    {
      posts := posts + [Post(newId, text, imagePath, 0)];
      id := newId;
      assert posts[|old(posts)|].id == newId;
    }

    /** Votes on the first post with this id. An absent post is `NotFound`
        whatever the action; an unknown action on a present post is
        `InvalidAction`; in both cases nothing changes. */
    method LikePost(postId: Uuid, action: string) returns (r: Result<(), LikeError>)
      modifies this
      ensures VotesInRange(old(posts)) ==> VotesInRange(posts)
      ensures FirstIndex(old(posts), postId).None? ==> r == Err(NotFound) && posts == old(posts)
      ensures FirstIndex(old(posts), postId).Some? && ParseVote(action).None? ==>
                r == Err(InvalidAction) && posts == old(posts)
      ensures FirstIndex(old(posts), postId).Some? && ParseVote(action).Some? ==>
                var k := FirstIndex(old(posts), postId).value;
                r == Ok(()) && posts == old(posts)[k := old(posts)[k].(likes := Toggle(ParseVote(action).value, old(posts)[k].likes))]
    {
      var i := 0;
      while i < |posts| && posts[i].id != postId
        invariant 0 <= i <= |posts|
        invariant forall k :: 0 <= k < i ==> posts[k].id != postId
      {
        i := i + 1;
      }
      if i == |posts| {
        return Err(NotFound);
      }
      assert FirstIndex(posts, postId) == Some(i);
      var vote := ParseVote(action);
      if vote.None? {
        return Err(InvalidAction);
      }
      posts := posts[i := posts[i].(likes := Toggle(vote.value, posts[i].likes))];
      r := Ok(());
    }

    /** Creates a post from a form: gathers the text and the saved image
        path field by field, stopping at the first upload the guard
        rejects; the text is required. */
    method CreatePost(fields: seq<Field>, paths: seq<string>, newId: Uuid) returns (r: Result<Uuid, CreateError>)
      requires |paths| == |fields|
      requires forall k :: 0 <= k < |posts| ==> posts[k].id != newId
      modifies this
      ensures VotesInRange(old(posts)) ==> VotesInRange(posts)
      ensures Collect(fields, paths, |fields|).Err? ==>
                r == Err(Upload(Collect(fields, paths, |fields|).error)) && posts == old(posts)
      ensures Collect(fields, paths, |fields|).Ok? && Collect(fields, paths, |fields|).value.0.None? ==>
                r == Err(TextRequired) && posts == old(posts)
      ensures Collect(fields, paths, |fields|).Ok? && Collect(fields, paths, |fields|).value.0.Some? ==>
                var (text, imagePath) := Collect(fields, paths, |fields|).value;
                r == Ok(newId) && posts == old(posts) + [Post(newId, text.value, imagePath, 0)]
    {
      var text: Option<string> := None;
      var imagePath: Option<string> := None;
      for i := 0 to |fields|
        invariant Collect(fields, paths, i) == Ok((text, imagePath))
      {
        match fields[i]
        case TextField(t) =>
          text := Some(t);
        case FileField(name, size, image) =>
          var check := CheckUpload(name, size, image);
          if check.Err? {
            RejectionEndsCollect(fields, paths, i);
            return Err(Upload(check.error));
          }
          imagePath := Some(paths[i]);
        case OtherField(_) =>
      }
      if text.None? {
        return Err(TextRequired);
      }
      var id := SavePost(text.value, imagePath, newId);
      r := Ok(id);
    }
  }
}
