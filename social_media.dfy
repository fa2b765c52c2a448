/**
 * `SocialMediaApiServiceImpl`: what Reddit says about a career or a
 * specialization. Two searches per subject, each reduced to a summary of
 * its posts (`extractRedditData`), plus a short Spanish text built from the
 * post counts.
 *
 * The HTTP calls are a parameter `reddit` from the request URL to the call's
 * outcome (it threw, or it returned a body, which may be `null`). Java's
 * `String.valueOf` of a non-string JSON value is the parameter `valueOf`.
 */
module SocialMedia {
  import opened Common
  import Decimal

  const RedditBaseUrl := "https://www.reddit.com"
  const PostUrlPrefix := "https://reddit.com"
  const SearchSuffix := "&limit=10&sort=relevance&t=year"
  const SubredditSuffix := "&restrict_sr=1&limit=10&sort=relevance"
  const CareerAdviceSubreddit := "cscareerquestions"
  const SnippetLength := 200
  const Unavailable := "No se pudo obtener información de Reddit en este momento"

  // ---------------------------------------------------------------- request URLs

  /** `query.replace(" ", "+")`. */
  function QueryParam(query: string): (r: string)
    ensures |r| == |query|
    ensures forall i :: 0 <= i < |r| ==> r[i] != ' '
    ensures forall i :: 0 <= i < |query| ==> r[i] == if query[i] == ' ' then '+' else query[i]
  {
    ReplaceChar(query, ' ', '+')
  }

  /** The site-wide search URL of `searchReddit`. */
  function SearchUrl(query: string): (r: string)
    ensures r == RedditBaseUrl + "/search.json?q=" + QueryParam(query) + SearchSuffix
  {
    RedditBaseUrl + "/search.json?q=" + QueryParam(query) + SearchSuffix
  }

  /** The one-subreddit search URL of `searchInSubreddit`. */
  function SubredditUrl(query: string, subreddit: string): (r: string)
    ensures r == RedditBaseUrl + "/r/" + subreddit + "/search.json?q=" + QueryParam(query) + SubredditSuffix
  {
    RedditBaseUrl + "/r/" + subreddit + "/search.json?q=" + QueryParam(query) + SubredditSuffix
  }

  /** Neither URL ever carries a space, whatever the query (the subreddit names have none). */
  lemma UrlsHaveNoSpaces(query: string, subreddit: string)
    requires forall i :: 0 <= i < |subreddit| ==> subreddit[i] != ' '
    ensures forall i :: 0 <= i < |SearchUrl(query)| ==> SearchUrl(query)[i] != ' '
    ensures forall i :: 0 <= i < |SubredditUrl(query, subreddit)| ==> SubredditUrl(query, subreddit)[i] != ' '
  {
    var q := QueryParam(query);
    var a := RedditBaseUrl + "/search.json?q=";
    assert SearchUrl(query) == a + q + SearchSuffix;
    assert forall i :: 0 <= i < |a| ==> a[i] != ' ';
    assert forall i :: 0 <= i < |SearchSuffix| ==> SearchSuffix[i] != ' ';
    var b := RedditBaseUrl + "/r/";
    var c := "/search.json?q=";
    assert SubredditUrl(query, subreddit) == b + subreddit + c + q + SubredditSuffix;
    assert forall i :: 0 <= i < |b| ==> b[i] != ' ';
    assert forall i :: 0 <= i < |c| ==> c[i] != ' ';
    assert forall i :: 0 <= i < |SubredditSuffix| ==> SubredditSuffix[i] != ' ';
  }

  // ---------------------------------------------------------------- posts

  /** One entry of `posts`; the untyped columns are copied as JSON values. */
  datatype Post = Post(
    title: Json,
    author: Json,
    score: Json,
    numComments: Json,
    url: string,
    subreddit: Json,
    created: Json,
    snippet: Option<string>)

  /**
   * The UTF-16 code units Java stores for one character: two for a
   * character outside the Basic Multilingual Plane (a surrogate pair), one
   * for any other.
   */
  function Utf16Units(c: char): (r: nat)
    ensures r == 1 || r == 2
    ensures r == 2 <==> c as int >= 0x1_0000
  {
    if c as int >= 0x1_0000 then 2 else 1
  }

  /** `String.length()`: the number of UTF-16 code units of the text. */
  function Utf16Length(s: string): nat
  {
    if s == [] then 0 else Utf16Units(s[0]) + Utf16Length(s[1..])
  }

  /** A text of characters of the Basic Multilingual Plane has one code unit per character. */
  lemma {:induction false} Utf16LengthBmp(s: string)
    requires forall i :: 0 <= i < |s| ==> s[i] as int < 0x1_0000
    ensures Utf16Length(s) == |s|
  {
    if s != [] {
      Utf16LengthBmp(s[1..]);
    }
  }

  /** A text of characters outside the Basic Multilingual Plane has two code units per character. */
  lemma {:induction false} Utf16LengthAstral(s: string)
    requires forall i :: 0 <= i < |s| ==> s[i] as int >= 0x1_0000
    ensures Utf16Length(s) == 2 * |s|
  {
    if s != [] {
      Utf16LengthAstral(s[1..]);
    }
  }

  /**
   * The longest prefix of whole characters that fits in `n` code units: what
   * `substring(0, n)` keeps, except that a surrogate pair straddling the
   * bound is left out rather than cut in half.
   */
  function Utf16Prefix(s: string, n: nat): (p: string)
    ensures p <= s && Utf16Length(p) <= n
    ensures p != s ==> Utf16Length(p) + Utf16Units(s[|p|]) > n
  {
    if s == [] || Utf16Units(s[0]) > n then []
    else
      var q := Utf16Prefix(s[1..], n - Utf16Units(s[0]));
      assert ([s[0]] + q)[1..] == q;
      [s[0]] + q
  }

  /** In a text of Basic Multilingual Plane characters the prefix is the first `n` characters. */
  lemma {:induction false} Utf16PrefixBmp(s: string, n: nat)
    requires forall i :: 0 <= i < |s| ==> s[i] as int < 0x1_0000
    ensures Utf16Prefix(s, n) == s[..if n < |s| then n else |s|]
  {
    if s != [] && n > 0 {
      var m := if n < |s| then n else |s|;
      Utf16PrefixBmp(s[1..], n - 1);
      assert Utf16Units(s[0]) == 1;
      assert Utf16Prefix(s, n) == [s[0]] + Utf16Prefix(s[1..], n - 1);
      assert s[..m] == [s[0]] + s[1..][..m - 1];
    }
  }

  /**
   * A self text longer than 200 UTF-16 code units is cut to its first 200
   * code units and marked with `"..."`; a shorter one is kept whole.
   */
  function Snippet(selftext: string): (r: string)
    ensures Utf16Length(selftext) <= SnippetLength ==> r == selftext
    ensures Utf16Length(selftext) > SnippetLength ==>
      |r| >= 3 && r[|r| - 3..] == "..." && r[..|r| - 3] < selftext
    ensures Utf16Length(selftext) > SnippetLength ==>
      var kept := r[..|r| - 3];
      Utf16Length(kept) == SnippetLength ||
      (Utf16Length(kept) == SnippetLength - 1 && Utf16Units(selftext[|kept|]) == 2)
  {
    if Utf16Length(selftext) > SnippetLength then
      var p := Utf16Prefix(selftext, SnippetLength);
      assert (p + "...")[..|p|] == p;
      p + "..."
    else selftext
  }

  /** For Basic Multilingual Plane text the snippet is the first 200 characters and `"..."`. */
  lemma SnippetBmp(selftext: string)
    requires forall i :: 0 <= i < |selftext| ==> selftext[i] as int < 0x1_0000
    ensures |selftext| <= SnippetLength ==> Snippet(selftext) == selftext
    ensures |selftext| > SnippetLength ==> Snippet(selftext) == selftext[..SnippetLength] + "..."
  {
    Utf16LengthBmp(selftext);
    Utf16PrefixBmp(selftext, SnippetLength);
  }

  /** A text of more than 100 characters outside the Basic Multilingual Plane is cut to 100 of them. */
  lemma SnippetAstral(selftext: string)
    requires forall i :: 0 <= i < |selftext| ==> selftext[i] as int >= 0x1_0000
    requires |selftext| > SnippetLength / 2
    ensures Snippet(selftext) == selftext[..SnippetLength / 2] + "..."
  {
    Utf16LengthAstral(selftext);
    var p := Utf16Prefix(selftext, SnippetLength);
    Utf16LengthAstral(p);
    assert p == selftext[..|p|];
    assert selftext[|p|] as int >= 0x1_0000;
  }

  /** A post together with the two numbers the totals add up. */
  datatype Entry = Entry(post: Post, score: int, comments: int)

  // The members of a listing child that the loop reads.
  const DataKey := "data"
  const ChildrenKey := "children"
  const SelftextKey := "selftext"
  const ScoreKey := "score"
  const CommentsKey := "num_comments"
  const PermalinkKey := "permalink"
  const TitleKey := "title"
  const AuthorKey := "author"
  const SubredditKey := "subreddit"
  const CreatedKey := "created_utc"

  /**
   * One element of `children`, or `None` where the loop throws: the child or
   * its `data` is not an object, `selftext` is neither a string nor `null`,
   * or `score` / `num_comments` is not a number. `intValue` truncates toward zero.
   */
  function EntryOf(child: Json, valueOf: Json -> string): (r: Option<Entry>)
  {
    if !child.JObject? || !Member(child.members, DataKey).JObject? then None
    else
      var d := Member(child.members, DataKey).members;
      var selftext := Member(d, SelftextKey);
      var score := Member(d, ScoreKey);
      var comments := Member(d, CommentsKey);
      var permalink := Member(d, PermalinkKey);
      if !(selftext.JNull? || selftext.JString?) || !score.JNumber? || !comments.JNumber? then None
      else
        var snippet := if selftext.JString? && selftext.text != "" then Some(Snippet(selftext.text)) else None;
        var url := PostUrlPrefix + (if permalink.JString? then permalink.text
                                    else if permalink.JNull? then "null" else valueOf(permalink));
        var post := Post(Member(d, TitleKey), Member(d, AuthorKey), score, comments, url,
                         Member(d, SubredditKey), Member(d, CreatedKey), snippet);
        Some(Entry(post, Decimal.JavaDiv(score.hundredths, 100), Decimal.JavaDiv(comments.hundredths, 100)))
  }

  /** What a post of the response becomes: the snippet only for a non-empty self text. */
  lemma EntrySnippet(child: Json, valueOf: Json -> string)
    requires EntryOf(child, valueOf).Some?
    ensures var d := Member(child.members, DataKey).members;
      var s := EntryOf(child, valueOf).value.post.snippet;
      (s.Some? <==> Member(d, SelftextKey).JString? && Member(d, SelftextKey).text != "") &&
      (s.Some? ==> s.value == Snippet(Member(d, SelftextKey).text))
  {
  }

  /** The entries of all children, in order; `None` when any child throws. */
  function Entries(children: seq<Json>, valueOf: Json -> string): (r: Option<seq<Entry>>)
    ensures r.Some? <==> forall i :: 0 <= i < |children| ==> EntryOf(children[i], valueOf).Some?
    ensures r.Some? ==> |r.value| == |children|
    ensures r.Some? ==> forall i :: 0 <= i < |children| ==> r.value[i] == EntryOf(children[i], valueOf).value
  {
    if forall i :: 0 <= i < |children| ==> EntryOf(children[i], valueOf).Some? then
      Some(seq(|children|, i requires 0 <= i < |children| => EntryOf(children[i], valueOf).value))
    else None
  }

  function PostsOf(entries: seq<Entry>): (r: seq<Post>)
    ensures |r| == |entries| && forall i :: 0 <= i < |entries| ==> r[i] == entries[i].post
  {
    seq(|entries|, i requires 0 <= i < |entries| => entries[i].post)
  }

  function ScoresOf(entries: seq<Entry>): (r: seq<int>)
    ensures |r| == |entries| && forall i :: 0 <= i < |entries| ==> r[i] == entries[i].score
  {
    seq(|entries|, i requires 0 <= i < |entries| => entries[i].score)
  }

  function CommentsOf(entries: seq<Entry>): (r: seq<int>)
    ensures |r| == |entries| && forall i :: 0 <= i < |entries| ==> r[i] == entries[i].comments
  {
    seq(|entries|, i requires 0 <= i < |entries| => entries[i].comments)
  }

  // ---------------------------------------------------------------- extracted data

  /** The map `extractRedditData` or `getDefaultRedditData` returns. */
  datatype RedditData =
      /** The extraction threw before writing any key. */
    | NoData
    | Data(posts: seq<Post>, totalPosts: int, totalUpvotes: int, totalComments: int, averageScore: int,
           message: Option<string>)

  /** `getOrDefault("totalPosts", 0)`. */
  function TotalPosts(d: RedditData): int {
    if d.Data? then d.totalPosts else 0
  }

  /** `getOrDefault("averageScore", 0)`. */
  function AverageScore(d: RedditData): int {
    if d.Data? then d.averageScore else 0
  }

  /** `getDefaultRedditData`: no posts, every total zero, and the apology message. */
  function DefaultData(): (r: RedditData)
    ensures r.Data? && r.posts == [] && r.message == Some(Unavailable)
    ensures r.totalPosts == 0 && r.totalUpvotes == 0 && r.totalComments == 0 && r.averageScore == 0
  {
    Data([], 0, 0, 0, 0, Some(Unavailable))
  }

  /**
   * `extractRedditData` as a value: the posts under `data.children`, their
   * count, the 32-bit sums of scores and comments, and the truncated average
   * score (0 without posts). A response of another shape, or any child the
   * loop throws on, leaves the map empty: the keys are written after the loop.
   */
  function Extracted(response: Json, valueOf: Json -> string): (r: RedditData)
    ensures r.Data? ==> r.message.None? && r.totalPosts == |r.posts|
    ensures r.Data? <==>
      response.JObject? && Member(response.members, DataKey).JObject? &&
      Member(Member(response.members, DataKey).members, ChildrenKey).JList? &&
      Entries(Member(Member(response.members, DataKey).members, ChildrenKey).items, valueOf).Some?
  {
    if !response.JObject? || !Member(response.members, DataKey).JObject? then NoData
    else match Member(Member(response.members, DataKey).members, ChildrenKey)
      case JList(children) =>
        (match Entries(children, valueOf)
         case None => NoData
         case Some(entries) => Summarize(entries))
      case _ => NoData
  }

  /** The keys written after the loop, for the entries it read. */
  function Summarize(entries: seq<Entry>): (r: RedditData)
    ensures r.Data? && r.message.None? && r.totalPosts == |r.posts|
  {
    var upvotes := Int32(Sum(ScoresOf(entries)));
    Data(PostsOf(entries), |entries|, upvotes, Int32(Sum(CommentsOf(entries))),
         if entries == [] then 0 else Decimal.JavaDiv(upvotes, |entries|), None)
  }

  /** The children of a well-shaped response. */
  function Children(response: Json): seq<Json>
    requires response.JObject? && Member(response.members, DataKey).JObject?
    requires Member(Member(response.members, DataKey).members, ChildrenKey).JList?
  {
    Member(Member(response.members, DataKey).members, ChildrenKey).items
  }

  /**
   * The totals are those of the posts listed: each post one count, and the
   * upvote and comment totals the sums of their scores and comment counts
   * (exactly, while they fit in an `int`).
   */
  lemma ExtractedTotals(response: Json, valueOf: Json -> string)
    requires Extracted(response, valueOf).Data?
    ensures var d := Extracted(response, valueOf);
      var entries := Entries(Children(response), valueOf).value;
      d.posts == PostsOf(entries) && d.totalPosts == |entries| &&
      d.totalUpvotes == Int32(Sum(ScoresOf(entries))) && d.totalComments == Int32(Sum(CommentsOf(entries)))
  {
  }

  /**
   * With every score between `lo` and `hi` and a total that fits in an
   * `int`, the average score lies between them too.
   */
  lemma AverageWithinScores(response: Json, valueOf: Json -> string, lo: int, hi: int)
    requires Extracted(response, valueOf).Data?
    requires 0 <= lo <= hi
    requires var entries := Entries(Children(response), valueOf).value;
      (forall i :: 0 <= i < |entries| ==> lo <= entries[i].score <= hi) &&
      -TwoTo31 <= Sum(ScoresOf(entries)) < TwoTo31
    ensures var d := Extracted(response, valueOf);
      d.totalPosts > 0 ==> lo <= d.averageScore <= hi
  {
    var entries := Entries(Children(response), valueOf).value;
    var scores := ScoresOf(entries);
    SumBounds(scores, lo, hi);
    if |entries| > 0 {
      DivWithin(Sum(scores), |entries|, lo, hi);
    }
  }

  /** A truncated mean of values between `lo` and `hi` stays between them. */
  lemma DivWithin(s: int, n: int, lo: int, hi: int)
    requires n > 0 && 0 <= lo && n * lo <= s <= n * hi
    ensures lo <= Decimal.JavaDiv(s, n) <= hi
  {
    assert 0 <= n * lo by { MulMono(n, 0, lo); }
    Decimal.JavaDivNonNegative(s, n);
    Decimal.DivBracket(s, n);
    var q := s / n;
    if q < lo {
      MulMono(n, q + 1, lo);
    }
    if q > hi {
      MulMono(n, hi + 1, q);
    }
  }

  lemma MulMono(n: int, a: int, b: int)
    requires n > 0 && a <= b
    ensures n * a <= n * b
  {
  }

  /** `extractRedditData`: the shape checks, then the loop over the children. */
  method ExtractRedditData(response: Json, valueOf: Json -> string) returns (r: RedditData)
    ensures r == Extracted(response, valueOf)
  {
    if !response.JObject? || !Member(response.members, DataKey).JObject? {
      return NoData;
    }
    var childrenValue := Member(Member(response.members, DataKey).members, ChildrenKey);
    if !childrenValue.JList? {
      return NoData;
    }
    r := ReadChildren(childrenValue.items, valueOf);
  }

  /** The loop of `extractRedditData`, summing into 32-bit `int`s; the keys are written after it. */
  method ReadChildren(children: seq<Json>, valueOf: Json -> string) returns (r: RedditData)
    ensures Entries(children, valueOf).None? ==> r == NoData
    ensures Entries(children, valueOf).Some? ==> r == Summarize(Entries(children, valueOf).value)
  {
    var posts: seq<Post> := [];
    var totalUpvotes := 0;
    var totalComments := 0;
    for i := 0 to |children|
      invariant Entries(children[..i], valueOf).Some?
      invariant posts == PostsOf(Entries(children[..i], valueOf).value)
      invariant totalUpvotes == Int32(Sum(ScoresOf(Entries(children[..i], valueOf).value)))
      invariant totalComments == Int32(Sum(CommentsOf(Entries(children[..i], valueOf).value)))
    {
      var entry := EntryOf(children[i], valueOf);
      if entry.None? {
        assert !EntryOf(children[i], valueOf).Some?;
        return NoData;
      }
      var e := entry.value;
      assert Entries(children[..i + 1], valueOf).Some? &&
             posts + [e.post] == PostsOf(Entries(children[..i + 1], valueOf).value) &&
             Int32(totalUpvotes + e.score) == Int32(Sum(ScoresOf(Entries(children[..i + 1], valueOf).value))) &&
             Int32(totalComments + e.comments) == Int32(Sum(CommentsOf(Entries(children[..i + 1], valueOf).value)))
      by {
        EntriesStep(children, i, valueOf);
        TotalsStep(Entries(children[..i], valueOf).value, e, Entries(children[..i + 1], valueOf).value,
                   posts, totalUpvotes, totalComments);
      }
      posts := posts + [e.post];
      totalUpvotes := Int32(totalUpvotes + e.score);
      totalComments := Int32(totalComments + e.comments);
    }
    assert children[..|children|] == children;
    ghost var entries := Entries(children, valueOf).value;
    assert |posts| == |entries|;
    var average := if |posts| == 0 then 0 else Decimal.JavaDiv(totalUpvotes, |posts|);
    r := Data(posts, |posts|, totalUpvotes, totalComments, average, None);
    assert r == Summarize(entries);
  }

  /** One more child read: its entry is appended to those of the children before it. */
  lemma EntriesStep(children: seq<Json>, i: nat, valueOf: Json -> string)
    requires i < |children|
    requires Entries(children[..i], valueOf).Some? && EntryOf(children[i], valueOf).Some?
    ensures Entries(children[..i + 1], valueOf).Some?
    ensures Entries(children[..i + 1], valueOf).value ==
            Entries(children[..i], valueOf).value + [EntryOf(children[i], valueOf).value]
  {
    assert children[..i + 1][i] == children[i];
    assert forall j :: 0 <= j < i ==> children[..i + 1][j] == children[..i][j];
  }

  /** One more entry: one more post, and its numbers added into the 32-bit totals. */
  lemma TotalsStep(before: seq<Entry>, e: Entry, after: seq<Entry>, posts: seq<Post>, upvotes: int, comments: int)
    requires after == before + [e]
    requires posts == PostsOf(before)
    requires upvotes == Int32(Sum(ScoresOf(before))) && comments == Int32(Sum(CommentsOf(before)))
    ensures posts + [e.post] == PostsOf(after)
    ensures Int32(upvotes + e.score) == Int32(Sum(ScoresOf(after)))
    ensures Int32(comments + e.comments) == Int32(Sum(CommentsOf(after)))
  {
    assert ScoresOf(after) == ScoresOf(before) + [e.score];
    assert CommentsOf(after) == CommentsOf(before) + [e.comments];
    Int32SumStep(ScoresOf(before), e.score, upvotes);
    Int32SumStep(CommentsOf(before), e.comments, comments);
  }


  /**
   * One search: a call that throws gives the default data; a returned body
   * (`null` included) goes through the extraction.
   */
  function SearchResult(call: CallOutcome<Json>, valueOf: Json -> string): (r: RedditData)
    ensures call.Failed? ==> r == DefaultData()
    ensures call.Returned? ==> r == Extracted(call.body.GetOrElse(JNull), valueOf)
  {
    match call
    case Failed => DefaultData()
    case Returned(body) => Extracted(body.GetOrElse(JNull), valueOf)
  }

  /** A `null` body makes the extraction throw: an empty map, not the default data. */
  lemma NullBodyNoData(valueOf: Json -> string)
    ensures SearchResult(Returned(None), valueOf) == NoData
  {
  }

  // ---------------------------------------------------------------- summaries

  /** The community-interest level of the career summary. */
  function InterestLevel(averageScore: int): (r: string)
    ensures r == "Alto" <==> averageScore > 50
    ensures r == "Moderado" <==> 20 < averageScore <= 50
    ensures r == "Bajo" <==> averageScore <= 20
  {
    if averageScore > 50 then "Alto" else if averageScore > 20 then "Moderado" else "Bajo"
  }

  function CareerHeader(careerName: string): string {
    "Resumen de información sobre " + careerName + ":\n\n"
  }

  const FoundPrefix := "- Se encontraron "
  const FoundTail := " discusiones relevantes en Reddit.\n"
  const InterestPrefix := "- Nivel de interés de la comunidad: "

  function FoundLine(totalPosts: int): string {
    FoundPrefix + IntToString(totalPosts) + FoundTail
  }

  function InterestLine(averageScore: int): string {
    InterestPrefix + InterestLevel(averageScore) + "\n"
  }

  const ActiveLine := "- Esta carrera genera conversación activa en comunidades profesionales.\n"
  const LimitedLine := "- Información limitada en redes sociales. Considera consultar fuentes académicas adicionales.\n"

  /**
   * `generateCareerSummary`: the general search's post count and interest
   * level when it found posts, the limited-information line otherwise. The
   * advice search is not read.
   */
  function CareerSummary(general: RedditData, careerName: string): (r: string)
    ensures TotalPosts(general) > 0 ==>
      r == CareerHeader(careerName) + FoundLine(TotalPosts(general)) + InterestLine(AverageScore(general)) + ActiveLine
    ensures TotalPosts(general) <= 0 ==> r == CareerHeader(careerName) + LimitedLine
  {
    var header := CareerHeader(careerName);
    if TotalPosts(general) > 0 then
      header + FoundLine(TotalPosts(general)) + InterestLine(AverageScore(general)) + ActiveLine
    else header + LimitedLine
  }

  /**
   * A summary with posts reports their number and the interest level; a
   * failed or malformed search gives the limited-information summary.
   */
  lemma CareerSummaryReports(general: RedditData, careerName: string)
    ensures TotalPosts(general) > 0 ==>
      Contains(CareerSummary(general, careerName), IntToString(TotalPosts(general))) &&
      Contains(CareerSummary(general, careerName), InterestLevel(AverageScore(general)))
    ensures general == DefaultData() || general == NoData ==>
      CareerSummary(general, careerName) == CareerHeader(careerName) + LimitedLine
  {
    if TotalPosts(general) > 0 {
      var header := CareerHeader(careerName);
      var found := FoundLine(TotalPosts(general));
      var interest := InterestLine(AverageScore(general));
      var s := CareerSummary(general, careerName);
      ContainsSecond(header, found, interest, ActiveLine);
      ContainsMiddle(FoundPrefix, IntToString(TotalPosts(general)), FoundTail);
      ContainsTransitive(s, found, IntToString(TotalPosts(general)));
      ContainsThird(header, found, interest, ActiveLine);
      ContainsMiddle(InterestPrefix, InterestLevel(AverageScore(general)), "\n");
      ContainsTransitive(s, interest, InterestLevel(AverageScore(general)));
    }
  }

  function SpecializationHeader(specializationName: string): string {
    "Información sobre especialización en " + specializationName + ":\n\n"
  }

  const PresenceLine := "- Área de especialización con presencia en discusiones profesionales.\n"
  const EmergingLine := "- Área emergente o altamente especializada con discusión limitada en redes.\n"

  const ReferencesTail := " referencias en comunidades especializadas.\n"

  function ReferencesLine(count: int): string {
    FoundPrefix + IntToString(count) + ReferencesTail
  }

  /**
   * `generateSpecializationSummary`: when either search found posts, their
   * combined count (a 32-bit `int` sum); otherwise the emerging-area line.
   */
  function SpecializationSummary(discussion: RedditData, trends: RedditData, specializationName: string)
    : (r: string)
    ensures TotalPosts(discussion) > 0 || TotalPosts(trends) > 0 ==>
      r == SpecializationHeader(specializationName) + PresenceLine +
           ReferencesLine(Int32(TotalPosts(discussion) + TotalPosts(trends)))
    ensures TotalPosts(discussion) <= 0 && TotalPosts(trends) <= 0 ==>
      r == SpecializationHeader(specializationName) + EmergingLine
  {
    var header := SpecializationHeader(specializationName);
    if TotalPosts(discussion) > 0 || TotalPosts(trends) > 0 then
      header + PresenceLine + ReferencesLine(Int32(TotalPosts(discussion) + TotalPosts(trends)))
    else header + EmergingLine
  }

  /** The reported count is the sum of both searches' post counts. */
  lemma SpecializationSummaryCount(discussion: RedditData, trends: RedditData, specializationName: string)
    requires TotalPosts(discussion) > 0 || TotalPosts(trends) > 0
    requires -TwoTo31 <= TotalPosts(discussion) + TotalPosts(trends) < TwoTo31
    ensures Contains(SpecializationSummary(discussion, trends, specializationName),
                     IntToString(TotalPosts(discussion) + TotalPosts(trends)))
  {
    var count := TotalPosts(discussion) + TotalPosts(trends);
    var line := ReferencesLine(count);
    ContainsLast(SpecializationHeader(specializationName) + PresenceLine, line);
    ContainsMiddle(FoundPrefix, IntToString(count), ReferencesTail);
    ContainsTransitive(SpecializationSummary(discussion, trends, specializationName), line, IntToString(count));
  }

  // ---------------------------------------------------------------- the service's answers

  /** `getCareerInformation`'s map: keys generalDiscussion, careerAdvice and summary. */
  datatype CareerInformation = CareerInformation(generalDiscussion: RedditData, careerAdvice: RedditData,
                                                 summary: string)

  /** `getSpecializationInformation`'s map: keys discussion, marketTrends and summary. */
  datatype SpecializationInformation = SpecializationInformation(discussion: RedditData, marketTrends: RedditData,
                                                                 summary: string)

  /** `getCareerInformation`: a site-wide search and a `cscareerquestions` search, then the summary. */
  function GetCareerInformation(careerName: string, reddit: string -> CallOutcome<Json>,
                                valueOf: Json -> string): (r: CareerInformation)
    ensures r.generalDiscussion == SearchResult(reddit(SearchUrl(careerName + " career opportunities")), valueOf)
    ensures r.careerAdvice == SearchResult(reddit(SubredditUrl(careerName, CareerAdviceSubreddit)), valueOf)
    ensures r.summary == CareerSummary(r.generalDiscussion, careerName)
  {
    var general := SearchResult(reddit(SearchUrl(careerName + " career opportunities")), valueOf);
    var advice := SearchResult(reddit(SubredditUrl(careerName, CareerAdviceSubreddit)), valueOf);
    CareerInformation(general, advice, CareerSummary(general, careerName))
  }

  /** `getSpecializationInformation`: two site-wide searches, then the summary. */
  function GetSpecializationInformation(specializationName: string, reddit: string -> CallOutcome<Json>,
                                        valueOf: Json -> string): (r: SpecializationInformation)
    ensures r.discussion == SearchResult(reddit(SearchUrl(specializationName + " specialization")), valueOf)
    ensures r.marketTrends == SearchResult(reddit(SearchUrl(specializationName + " job market trends")), valueOf)
    ensures r.summary == SpecializationSummary(r.discussion, r.marketTrends, specializationName)
  {
    var discussion := SearchResult(reddit(SearchUrl(specializationName + " specialization")), valueOf);
    var trends := SearchResult(reddit(SearchUrl(specializationName + " job market trends")), valueOf);
    SpecializationInformation(discussion, trends, SpecializationSummary(discussion, trends, specializationName))
  }

  /** With Reddit unreachable, a career gets two default results and the limited-information summary. */
  lemma UnreachableRedditCareer(careerName: string, valueOf: Json -> string)
    ensures var r := GetCareerInformation(careerName, _ => Failed, valueOf);
      r.generalDiscussion == DefaultData() && r.careerAdvice == DefaultData() &&
      r.summary == CareerHeader(careerName) + LimitedLine
  {
  }
}
