/**
 * The list helpers of the JPA entities (`Article.java`, `Category.java`):
 * each side of a one-to-many association keeps a list of its children,
 * and the helpers change that list in place and set the child's
 * back-reference.
 */
module Entities {
  import opened Common

  const DRAFT := "DRAFT"

  /** The position of the first occurrence of `x`. */
  function FirstIndex<T(==)>(s: seq<T>, x: T): (k: nat)
    requires x in s
    ensures k < |s| && s[k] == x && x !in s[..k]
    decreases |s|
  {
    if s[0] == x then 0
    else
      var k := FirstIndex(s[1..], x);
      assert s[..k + 1] == [s[0]] + s[1..][..k];
      k + 1
  }

  /** `List.remove(Object)`: the first occurrence of `x` goes; a list
   *  without `x` is returned as it was. */
  function RemoveFirst<T(==)>(s: seq<T>, x: T): (r: seq<T>)
    ensures x !in s ==> r == s
    decreases |s|
  {
    if s == [] then []
    else if s[0] == x then s[1..]
    else [s[0]] + RemoveFirst(s[1..], x)
  }

  /** What `RemoveFirst` drops is the first occurrence, and only it. */
  lemma {:induction false} RemoveFirstDropsFirst<T>(s: seq<T>, x: T)
    requires x in s
    ensures var k := FirstIndex(s, x); RemoveFirst(s, x) == s[..k] + s[k + 1..]
    decreases |s|
  {
    if s[0] != x {
      RemoveFirstDropsFirst(s[1..], x);
      var k := FirstIndex(s[1..], x);
      assert s[..k + 1] == [s[0]] + s[1..][..k];
      assert s[k + 2..] == s[1..][k + 1..];
    }
  }

  /** Removing what was just appended, when it was not there before,
   *  restores the list. */
  lemma {:induction false} RemoveAppended<T>(s: seq<T>, x: T)
    requires x !in s
    ensures RemoveFirst(s + [x], x) == s
    decreases |s|
  {
    if s == [] {
      assert [x][1..] == [];
    } else {
      assert (s + [x])[1..] == s[1..] + [x];
      RemoveAppended(s[1..], x);
    }
  }

  /** Only the first occurrence goes: a list holding `x` twice still holds
   *  it after one removal. */
  lemma RemoveKeepsSecondCopy<T>(s: seq<T>, x: T, i: nat, j: nat)
    requires i < j < |s| && s[i] == x && s[j] == x
    ensures x in RemoveFirst(s, x)
  {
    RemoveFirstDropsFirst(s, x);
    var k := FirstIndex(s, x);
    assert (s[..k] + s[k + 1..])[j - 1] == s[j];
  }

  class CommentEntity {
    var article: ArticleEntity?

    constructor ()
      ensures article == null
    {
      article := null;
    }
  }

  class ArticleEntity {
    var title: Option<string>
    var status: string
    var comments: seq<CommentEntity>
    var category: CategoryEntity?

    /** `new Article()`: a draft with no comments. */
    constructor ()
      ensures status == DRAFT && comments == [] && category == null && title.None?
    {
      title := None;
      status := DRAFT;
      comments := [];
      category := null;
    }

    /** `addComment(comment)`: appended, and the comment points back here. */
    method AddComment(comment: CommentEntity)
      modifies this, comment
      ensures comments == old(comments) + [comment]
      ensures comment.article == this
      ensures title == old(title) && status == old(status) && category == old(category)
    {
      comments := comments + [comment];
      comment.article := this;
    }

    /** `removeComment(comment)`: its first occurrence goes, and the
     *  comment no longer points to an article. */
    method RemoveComment(comment: CommentEntity)
      modifies this, comment
      ensures comments == RemoveFirst(old(comments), comment)
      ensures comment.article == null
      ensures title == old(title) && status == old(status) && category == old(category)
    {
      comments := RemoveFirst(comments, comment);
      comment.article := null;
    }
  }

  class CategoryEntity {
    var title: Option<string>
    var articles: seq<ArticleEntity>

    /** `new Category()`: no articles. */
    constructor ()
      ensures articles == [] && title.None?
    {
      title := None;
      articles := [];
    }

    /** `addArticle(article)`: appended, and the article points back here. */
    method AddArticle(article: ArticleEntity)
      modifies this, article
      ensures articles == old(articles) + [article]
      ensures article.category == this
      ensures title == old(title)
      ensures article.comments == old(article.comments) && article.title == old(article.title)
      ensures article.status == old(article.status)
    {
      articles := articles + [article];
      article.category := this;
    }

    /** `removeArticle(article)`: its first occurrence goes, and the article
     *  no longer points to a category. */
    method RemoveArticle(article: ArticleEntity)
      modifies this, article
      ensures articles == RemoveFirst(old(articles), article)
      ensures article.category == null
      ensures title == old(title)
      ensures article.comments == old(article.comments) && article.title == old(article.title)
      ensures article.status == old(article.status)
    {
      articles := RemoveFirst(articles, article);
      article.category := null;
    }
  }

  /** Adding a comment the article did not hold and removing it again
   *  leaves the article's list as it was. */
  method AddThenRemoveComment(article: ArticleEntity, comment: CommentEntity)
    requires comment !in article.comments
    modifies article, comment
    ensures article.comments == old(article.comments)
    ensures comment.article == null
  {
    article.AddComment(comment);
    article.RemoveComment(comment);
    RemoveAppended(old(article.comments), comment);
  }

  /** Adding an article the category did not hold and removing it again
   *  leaves the category's list and title as they were. */
  method AddThenRemoveArticle(category: CategoryEntity, article: ArticleEntity)
    requires article !in category.articles
    modifies category, article
    ensures category.articles == old(category.articles) && category.title == old(category.title)
    ensures article.category == null
  {
    category.AddArticle(article);
    category.RemoveArticle(article);
    RemoveAppended(old(category.articles), article);
  }
}
