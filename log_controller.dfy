/**
 * The article-log endpoint (`LogController.java`): the lines of the log
 * file that mention articles, at most the last fifty. Reading the file is
 * not modelled; its lines are the input.
 */
module LogController {
  import opened Common

  /** How many of the last matching lines are returned. */
  const WINDOW := 50

  /** The filter's test: the service's class name, or "article" in any case. */
  predicate MentionsArticle(line: string)
  {
    Contains(line, "ArticleServiceImpl") || Contains(Lower(line), "article")
  }

  function MentionsArticleTest(): string -> bool
  {
    (line: string) => MentionsArticle(line)
  }

  /** The lines the stream filter keeps, in file order. */
  function Matching(lines: seq<string>): (kept: seq<string>)
    ensures forall line :: line in kept ==> line in lines && MentionsArticle(line)
    ensures forall line :: line in lines && MentionsArticle(line) ==> line in kept
  {
    Filter(lines, MentionsArticleTest())
  }

  /** `list.subList(max(0, size - n), size)`: the last `n` elements, or all
   *  of them when there are fewer. */
  function LastAtMost<T>(s: seq<T>, n: nat): (r: seq<T>)
    ensures |r| == if |s| < n then |s| else n
    ensures r == s[|s| - |r|..]
  {
    var from := if |s| - n > 0 then |s| - n else 0;
    s[from..]
  }

  /** `getArticleLogs()`: the last fifty matching lines, in file order. */
  function ArticleLogs(lines: seq<string>): (r: seq<string>)
    ensures |r| == if |Matching(lines)| < WINDOW then |Matching(lines)| else WINDOW
    ensures r == Matching(lines)[|Matching(lines)| - |r|..]
    ensures forall line :: line in r ==> line in lines && MentionsArticle(line)
  {
    LastAtMost(Matching(lines), WINDOW)
  }

  /** With fewer than fifty matches, every match is returned. */
  lemma FewMatchesAllReturned(lines: seq<string>)
    requires |Matching(lines)| <= WINDOW
    ensures ArticleLogs(lines) == Matching(lines)
  {
  }

  /** Lower-casing keeps an occurrence: what `s` contains, its lower-case
   *  form contains lower-cased. */
  lemma {:induction false} LowerKeepsContains(s: string, t: string)
    requires Contains(s, t)
    ensures Contains(Lower(s), Lower(t))
    decreases |s|
  {
    if StartsWith(s, t) {
      assert Lower(s)[..|t|] == Lower(t);
    } else {
      LowerKeepsContains(s[1..], t);
      assert Lower(s)[1..] == Lower(s[1..]);
    }
  }

  /** Containing a string means containing each of its prefixes. */
  lemma {:induction false} ContainsPrefixOf(s: string, u: string, t: string)
    requires Contains(s, u) && StartsWith(u, t)
    ensures Contains(s, t)
    decreases |s|
  {
    if StartsWith(s, u) {
      assert s[..|t|] == u[..|t|];
    } else {
      ContainsPrefixOf(s[1..], u, t);
    }
  }

  /** The class-name test is subsumed: a line is kept exactly when its
   *  lower-case form contains "article". */
  lemma MentionsArticleIgnoringCase(line: string)
    ensures MentionsArticle(line) <==> Contains(Lower(line), "article")
  {
    var name, word := "ArticleServiceImpl", "article";
    if Contains(line, name) {
      LowerKeepsContains(line, name);
      assert Lower(name)[..|word|] == word;
      ContainsPrefixOf(Lower(line), Lower(name), word);
    }
  }
}
