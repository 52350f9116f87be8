/**
 * The article page (`ArticleDetail.js`): the like toggle over the stored
 * liked-articles map, adding and deleting comments, the inline image
 * source and the count labels. Each request's outcome is a parameter.
 */
module ArticleDetail {
  import opened Common
  import ImageHelper

  datatype Comment = Comment(id: int, articleComment: string)

  const EMPTY_COMMENT := "Comment cannot be empty"
  const ADD_FAILED := "Failed to add comment. Please try again."
  const DELETE_FAILED := "Failed to delete comment. Please try again."

  /** `comments.filter(comment => comment.id !== commentId)`. */
  function WithoutComment(comments: seq<Comment>, commentId: int): (r: seq<Comment>)
    ensures forall c :: c in r <==> c in comments && c.id != commentId
    ensures |r| <= |comments|
    decreases |comments|
  {
    if comments == [] then []
    else (if comments[0].id == commentId then [] else [comments[0]]) + WithoutComment(comments[1..], commentId)
  }

  /** The other comments keep their order: removing from a concatenation
   *  removes from each part. */
  lemma {:induction false} WithoutCommentConcat(a: seq<Comment>, b: seq<Comment>, commentId: int)
    ensures WithoutComment(a + b, commentId) == WithoutComment(a, commentId) + WithoutComment(b, commentId)
    decreases |a|
  {
    if a == [] {
      assert a + b == b;
    } else {
      assert (a + b)[0] == a[0] && (a + b)[1..] == a[1..] + b;
      WithoutCommentConcat(a[1..], b, commentId);
    }
  }

  /** A comment added and then deleted by a fresh id leaves the list as it
   *  was. */
  lemma AddThenDelete(comments: seq<Comment>, added: Comment)
    requires forall c :: c in comments ==> c.id != added.id
    ensures WithoutComment(comments + [added], added.id) == comments
  {
    WithoutCommentConcat(comments, [added], added.id);
    WithoutCommentUnmatched(comments, added.id);
    assert WithoutComment([added], added.id) == [];
  }

  lemma {:induction false} WithoutCommentUnmatched(comments: seq<Comment>, commentId: int)
    requires forall c :: c in comments ==> c.id != commentId
    ensures WithoutComment(comments, commentId) == comments
    decreases |comments|
  {
    if comments != [] {
      assert comments[0] in comments;
      WithoutCommentUnmatched(comments[1..], commentId);
      assert comments == [comments[0]] + comments[1..];
    }
  }

  /** The `src` chain written inline for the article image. */
  function InlineImageSrc(origin: string, imagePath: string): string
  {
    if StartsWith(imagePath, "http") then imagePath
    else if StartsWith(imagePath, "/api/upload/files/") then origin + imagePath
    else if StartsWith(imagePath, "/api") then origin + "/api" + imagePath[4..]
    else if StartsWith(imagePath, "/") then origin + imagePath
    else origin + "/api/upload/files/" + imagePath
  }

  /** The inline chain agrees with `getImageUrl` for every non-empty path. */
  lemma InlineSrcMatchesImageHelper(origin: string, imagePath: string)
    requires imagePath != ""
    ensures ImageHelper.ImageUrl(origin, imagePath) == Some(InlineImageSrc(origin, imagePath))
  {
  }

  /** `n === 1 ? 'like' : 'likes'` and the same for comments. */
  function CountLabel(n: int, singular: string): (text: string)
    ensures text == singular <==> n == 1
    ensures n != 1 ==> text == singular + "s"
  {
    if n == 1 then singular else singular + "s"
  }

  class ArticleDetailState {
    const id: string
    var liked: bool
    var likeCount: int
    var likedStore: set<string>
    var comments: seq<Comment>
    var newComment: string
    var commentError: string

    constructor (articleId: string, stored: set<string>, initialLikes: int, loaded: seq<Comment>)
      ensures id == articleId && likedStore == stored && liked == (articleId in stored)
      ensures likeCount == initialLikes && comments == loaded && newComment == "" && commentError == ""
    {
      id := articleId;
      likedStore := stored;
      liked := articleId in stored;
      likeCount := initialLikes;
      comments := loaded;
      newComment := "";
      commentError := "";
    }

    /** `handleToggleLike`: flips `liked`, moves the count by one in that
     *  direction and records the new state in the stored map. */
    method HandleToggleLike()
      modifies this`liked, this`likeCount, this`likedStore
      ensures liked == !old(liked)
      ensures likeCount == old(likeCount) + (if liked then 1 else -1)
      ensures likedStore == if liked then old(likedStore) + {id} else old(likedStore) - {id}
    {
      liked := !liked;
      likeCount := likeCount + (if liked then 1 else -1);
      if liked {
        likedStore := likedStore + {id};
      } else {
        likedStore := likedStore - {id};
      }
    }

    /** `handleAddComment`: a blank comment is refused before any request;
     *  a created comment goes to the end of the list. `created` is what the
     *  request gave: the new comment, or the server's message ("" when it
     *  has none). `sent` tells whether a request was made. */
    method HandleAddComment(created: Result<Comment>) returns (sent: bool)
      modifies this`comments, this`newComment, this`commentError
      ensures sent <==> !JsBlank(old(newComment))
      ensures !sent ==> commentError == EMPTY_COMMENT && comments == old(comments) && newComment == old(newComment)
      ensures sent && created.Ok? ==> comments == old(comments) + [created.value] && newComment == "" && commentError == ""
      ensures sent && created.Err? ==>
        comments == old(comments) && newComment == old(newComment) && commentError == OrElse(created.error, ADD_FAILED)
    {
      if JsBlank(newComment) {
        commentError := EMPTY_COMMENT;
        return false;
      }
      sent := true;
      match created {
        case Ok(c) =>
          comments := comments + [c];
          newComment := "";
          commentError := "";
        case Err(message) =>
          commentError := OrElse(message, ADD_FAILED);
      }
    }

    /** `handleDeleteComment`: nothing happens unless the user confirms; a
     *  successful delete drops every comment with that id. */
    method HandleDeleteComment(commentId: int, confirmed: bool, deleted: Result<()>)
      modifies this`comments, this`commentError
      ensures !confirmed ==> comments == old(comments) && commentError == old(commentError)
      ensures confirmed && deleted.Ok? ==> comments == WithoutComment(old(comments), commentId) && commentError == old(commentError)
      ensures confirmed && deleted.Err? ==> comments == old(comments) && commentError == DELETE_FAILED
    {
      if confirmed {
        if deleted.Ok? {
          comments := WithoutComment(comments, commentId);
        } else {
          commentError := DELETE_FAILED;
        }
      }
    }
  }
}
