/**
 * The page that shortens links (`Index.tsx`): URL normalisation, the random
 * slug, the recent-links history kept in local storage, and `handleShorten`,
 * which claims a slug in the table and records the new link.
 */
module ShortenPage {
  import opened Wrappers
  import opened Seqs
  import opened Text
  import opened UrlForm
  import opened Store

  /** A shortened link as the page shows it and keeps it in its history. */
  datatype ShortenedUrl = ShortenedUrl(
    slug: string,
    originalUrl: string,
    shortUrl: string,
    clickCount: Option<int>,
    createdAt: Option<string>)

  // ---------------------------------------------------------------- the URL

  /** The URL that gets stored: trimmed, with `https://` in front unless it already has a scheme. */
  function NormalizeUrl(url: string): (r: string)
    ensures HasScheme(r)
    ensures HasScheme(Trim(url)) ==> r == Trim(url)
    ensures !HasScheme(Trim(url)) ==> r == "https://" + Trim(url)
    ensures IsTrimmed(r)
  {
    SchemeKeepsTrimmed(Trim(url));
    WithDefaultScheme(Trim(url))
  }

  lemma SchemeKeepsTrimmed(t: string)
    requires IsTrimmed(t)
    ensures IsTrimmed(WithDefaultScheme(t))
    ensures !HasScheme(t) ==> WithDefaultScheme(t) == "https://" + t
  {
    if !HasScheme(t) {
      ConcatTrimmed("https://", t);
    }
  }

  lemma NormalizeUrlIdempotent(url: string)
    ensures NormalizeUrl(NormalizeUrl(url)) == NormalizeUrl(url)
  {
    TrimmedIsFixed(NormalizeUrl(url));
  }

  // ----------------------------------------------------------- the random slug

  const SlugLength: nat := 6
  const SlugAlphabet := "abcdefghijklmnopqrstuvwxyzABCDEFGHIJKLMNOPQRSTUVWXYZ0123456789"

  /** A value `Math.random()` can return. */
  predicate IsRandomDraw(d: real) {
    0.0 <= d < 1.0
  }

  /** The `Math.random()` results one slug consumes, one per character. */
  predicate IsSlugDraws(draws: seq<real>) {
    |draws| == SlugLength && forall i :: 0 <= i < |draws| ==> IsRandomDraw(draws[i])
  }

  /** `Math.floor(d * chars.length)`, computed exactly. */
  function PickIndex(d: real): (k: nat)
    requires IsRandomDraw(d)
    ensures k < |SlugAlphabet|
    ensures k as real <= d * |SlugAlphabet| as real < k as real + 1.0
  {
    (d * |SlugAlphabet| as real).Floor
  }

  /** Six characters of the 62-character alphabet. */
  predicate IsGeneratedSlug(s: string) {
    |s| == SlugLength && forall i :: 0 <= i < |s| ==> s[i] in SlugAlphabet
  }

  /** The slug the generator builds from the given draws. */
  function SlugFromDraws(draws: seq<real>): (s: string)
    requires IsSlugDraws(draws)
    ensures IsGeneratedSlug(s)
  {
    seq(SlugLength, i requires 0 <= i < SlugLength => SlugAlphabet[PickIndex(draws[i])])
  }

  /** `generateRandomSlug`, with the `Math.random()` results passed in. */
  method GenerateRandomSlug(draws: seq<real>) returns (slug: string)
    requires IsSlugDraws(draws)
    ensures IsGeneratedSlug(slug)
    ensures slug == SlugFromDraws(draws)
  {
    slug := "";
    for i := 0 to SlugLength
      invariant |slug| == i
      invariant forall j :: 0 <= j < i ==> slug[j] == SlugAlphabet[PickIndex(draws[j])]
    {
      slug := slug + [SlugAlphabet[PickIndex(draws[i])]];
    }
  }

  /** The position of `c` in `s`. */
  function IndexIn(s: string, c: char): (k: nat)
    requires c in s
    ensures k < |s| && s[k] == c
  {
    if s[0] == c then 0 else 1 + IndexIn(s[1..], c)
  }

  /** The draw `k / 62` picks the character at position `k`. */
  lemma DrawForIndex(k: nat)
    requires k < |SlugAlphabet|
    ensures IsRandomDraw(k as real / |SlugAlphabet| as real)
    ensures PickIndex(k as real / |SlugAlphabet| as real) == k
  {
    var n := |SlugAlphabet| as real;
    var d := k as real / n;
    assert d * n == k as real;
  }

  /** Every six-character string over the alphabet is what some draws generate, so the generator is exactly "any such string". */
  lemma EveryGeneratedSlugIsDrawn(s: string)
    requires IsGeneratedSlug(s)
    ensures exists draws :: IsSlugDraws(draws) && SlugFromDraws(draws) == s
  {
    var draws := seq(SlugLength, i requires 0 <= i < SlugLength => IndexIn(SlugAlphabet, s[i]) as real / |SlugAlphabet| as real);
    forall i | 0 <= i < SlugLength
      ensures IsRandomDraw(draws[i]) && PickIndex(draws[i]) == IndexIn(SlugAlphabet, s[i])
    {
      DrawForIndex(IndexIn(SlugAlphabet, s[i]));
    }
    assert SlugFromDraws(draws) == s;
  }

  // ------------------------------------------------------------ the history

  const MaxHistory: nat := 5

  /** The history read back from local storage (`None` when nothing is stored or it does not parse): its first five entries. */
  function LoadHistory(saved: Option<seq<ShortenedUrl>>): (r: seq<ShortenedUrl>)
    ensures |r| <= MaxHistory
    ensures saved.None? ==> r == []
    ensures saved.Some? ==> |r| <= |saved.value| && r == saved.value[..|r|] && (|r| == MaxHistory || r == saved.value)
  {
    match saved
    case Some(entries) => Take(entries, MaxHistory)
    case None => []
  }

  /** The entries whose slug is not `slug`, in order. */
  function Without(history: seq<ShortenedUrl>, slug: string): seq<ShortenedUrl> {
    Filter((h: ShortenedUrl) => h.slug != slug, history)
  }

  /**
   * `[url, ...history.filter(u => u.slug !== url.slug)].slice(0, 5)`: the new
   * link first, then the earlier entries with other slugs, in their order.
   */
  function PushRecent(history: seq<ShortenedUrl>, link: ShortenedUrl): (r: seq<ShortenedUrl>)
    ensures 1 <= |r| <= MaxHistory && r[0] == link
    ensures forall i :: 1 <= i < |r| ==> r[i].slug != link.slug
    ensures IsSubsequence(r[1..], history)
  {
    var rest := Without(history, link.slug);
    var r := Take([link] + rest, MaxHistory);
    assert r[1..] == Take(rest, MaxHistory - 1);
    FilterIsSubsequence((h: ShortenedUrl) => h.slug != link.slug, history);
    TakeOfSubsequence(rest, history, MaxHistory - 1);
    r
  }

  /** Every entry after the first was already in the history. */
  lemma PushRecentAddsOnlyLink(history: seq<ShortenedUrl>, link: ShortenedUrl)
    ensures forall h :: h in PushRecent(history, link)[1..] ==> h in history
  {
    SubsequenceMembers(PushRecent(history, link)[1..], history);
  }

  /**
   * An old entry with another slug that has fewer than four such entries
   * before it is kept, right after the link and those entries.
   */
  lemma PushRecentKeepsRecent(history: seq<ShortenedUrl>, link: ShortenedUrl, i: nat)
    requires i < |history| && history[i].slug != link.slug
    requires |Without(history[..i], link.slug)| < MaxHistory - 1
    ensures var n := |Without(history[..i], link.slug)|;
      1 + n < |PushRecent(history, link)| && PushRecent(history, link)[1 + n] == history[i]
  {
    var p := (h: ShortenedUrl) => h.slug != link.slug;
    FilterAt(p, history, i);
    var rest := Filter(p, history);
    var n := |Filter(p, history[..i])|;
    assert PushRecent(history, link)[1..] == Take(rest, MaxHistory - 1);
    assert Take(rest, MaxHistory - 1)[n] == rest[n];
  }

  /** With room to spare and the slug new, nothing is dropped: the link goes in front of the whole history. */
  lemma PushRecentLosesNothing(history: seq<ShortenedUrl>, link: ShortenedUrl)
    requires |history| < MaxHistory
    requires forall i :: 0 <= i < |history| ==> history[i].slug != link.slug
    ensures PushRecent(history, link) == [link] + history
  {
    FilterKeepsAll((h: ShortenedUrl) => h.slug != link.slug, history);
  }

  /** Saving the same link twice in a row is the same as saving it once. */
  lemma PushRecentIdempotent(history: seq<ShortenedUrl>, link: ShortenedUrl)
    ensures PushRecent(PushRecent(history, link), link) == PushRecent(history, link)
  {
    var r := PushRecent(history, link);
    var p := (h: ShortenedUrl) => h.slug != link.slug;
    FilterKeepsAll(p, r[1..]);
    assert r == [r[0]] + r[1..];
    assert Filter(p, r) == Filter(p, r[1..]);
  }

  predicate DistinctSlugs(history: seq<ShortenedUrl>) {
    forall i, j :: 0 <= i < j < |history| ==> history[i].slug != history[j].slug
  }

  lemma {:induction false} SubsequenceKeepsDistinctSlugs(a: seq<ShortenedUrl>, b: seq<ShortenedUrl>)
    requires IsSubsequence(a, b) && DistinctSlugs(b)
    ensures DistinctSlugs(a)
    decreases |b|
  {
    if a != [] {
      assert DistinctSlugs(b[1..]);
      if a[0] == b[0] && IsSubsequence(a[1..], b[1..]) {
        SubsequenceKeepsDistinctSlugs(a[1..], b[1..]);
        SubsequenceMembers(a[1..], b[1..]);
        forall j | 1 <= j < |a| ensures a[0].slug != a[j].slug {
          assert a[j] in a[1..];
          var k :| 0 <= k < |b[1..]| && b[1..][k] == a[j];
          assert b[k + 1] == a[j];
        }
      } else {
        SubsequenceKeepsDistinctSlugs(a, b[1..]);
      }
    }
  }

  /** A history without repeated slugs keeps that property. */
  lemma PushRecentKeepsDistinctSlugs(history: seq<ShortenedUrl>, link: ShortenedUrl)
    requires DistinctSlugs(history)
    ensures DistinctSlugs(PushRecent(history, link))
  {
    var r := PushRecent(history, link);
    SubsequenceKeepsDistinctSlugs(r[1..], history);
    forall i, j | 0 <= i < j < |r| ensures r[i].slug != r[j].slug {
      if i > 0 {
        assert r[i] == r[1..][i - 1] && r[j] == r[1..][j - 1];
      }
    }
  }

  // ---------------------------------------------------------- handleShorten

  /** What `handleShorten` depends on besides its arguments: the page origin, the clock, `Math.random()` and how the table calls end. */
  datatype ShortenEnv = ShortenEnv(
    origin: string,
    now: string,
    draws: seq<real>,
    checkFault: Fault,
    insertFails: bool)

  /** How a shorten request ends: the custom slug is taken, the error toast, or a new link. */
  datatype ShortenOutcome = SlugTaken | Failed | Shortened(link: ShortenedUrl)

  /** A custom slug counts only when it is a non-empty string (JavaScript truthiness). */
  predicate IsCustom(customSlug: Option<string>) {
    customSlug.Some? && customSlug.value != []
  }

  /** `customSlug || generateRandomSlug()`. */
  function ChosenSlug(customSlug: Option<string>, draws: seq<real>): (slug: string)
    requires IsSlugDraws(draws)
    ensures IsCustom(customSlug) ==> slug == customSlug.value
    ensures !IsCustom(customSlug) ==> IsGeneratedSlug(slug)
  {
    if IsCustom(customSlug) then customSlug.value else SlugFromDraws(draws)
  }

  /**
   * The outcome of `handleShorten` once the URL is processed and the slug
   * chosen. Only a custom slug is looked up first; a lookup that returns an
   * error lets the insert go ahead, one that throws ends in the error toast.
   * The insert then fails on a slug that is already a key, including a
   * generated one, which is not retried.
   */
  function ClaimResult(processedUrl: string, slug: string, custom: bool, env: ShortenEnv, rows: map<string, Row>): (r: ShortenOutcome)
    ensures r == SlugTaken <==> custom && env.checkFault == NoFault && slug in rows
    ensures r.Shortened? <==> !(custom && env.checkFault == Throws) && !env.insertFails && slug !in rows
    ensures r.Shortened? ==>
      && r.link.slug == slug && r.link.originalUrl == processedUrl
      && r.link.shortUrl == env.origin + "/" + slug
      && r.link.clickCount == Some(0) && r.link.createdAt == Some(env.now)
  {
    var existing := if custom then SelectSingle(rows, slug, env.checkFault) else NoRow;
    if existing == Threw then Failed
    else if existing.Found? then SlugTaken
    else if env.insertFails || slug in rows then Failed
    else Shortened(ShortenedUrl(slug, processedUrl, env.origin + "/" + slug, Some(0), Some(env.now)))
  }

  /** The outcome of `handleShorten` against a table holding `rows`. */
  function ShortenResult(url: string, customSlug: Option<string>, env: ShortenEnv, rows: map<string, Row>): (r: ShortenOutcome)
    requires IsSlugDraws(env.draws)
    ensures r == SlugTaken <==> IsCustom(customSlug) && env.checkFault == NoFault && customSlug.value in rows
    ensures r.Shortened? <==>
      !(IsCustom(customSlug) && env.checkFault == Throws) && !env.insertFails && ChosenSlug(customSlug, env.draws) !in rows
    ensures r.Shortened? ==>
      && r.link.slug == ChosenSlug(customSlug, env.draws)
      && r.link.originalUrl == NormalizeUrl(url)
      && r.link.shortUrl == env.origin + "/" + r.link.slug
      && r.link.clickCount == Some(0)
      && r.link.createdAt == Some(env.now)
  {
    ClaimResult(NormalizeUrl(url), ChosenSlug(customSlug, env.draws), IsCustom(customSlug), env, rows)
  }

  /** The table after a shorten request: one new row on success, untouched otherwise. */
  function RowsAfterShorten(outcome: ShortenOutcome, rows: map<string, Row>, env: ShortenEnv): (r: map<string, Row>)
    ensures outcome.Shortened? ==> r.Keys == rows.Keys + {outcome.link.slug}
    ensures !outcome.Shortened? ==> r == rows
  {
    match outcome
    case Shortened(link) => rows[link.slug := Row(link.originalUrl, None, env.now)]
    case _ => rows
  }

  /** The first step of `handleShorten`: trim the URL, then put `https://` in front unless it has a scheme. */
  method ProcessUrl(url: string) returns (processedUrl: string)
    ensures processedUrl == NormalizeUrl(url)
  {
    processedUrl := Trim(url);
    if !HasScheme(processedUrl) {
      processedUrl := "https://" + processedUrl;
    }
  }

  /** `customSlug || generateRandomSlug()`: the generator runs only when there is no custom slug. */
  method ChooseSlug(customSlug: Option<string>, draws: seq<real>) returns (slug: string)
    requires IsSlugDraws(draws)
    ensures slug == ChosenSlug(customSlug, draws)
  {
    if IsCustom(customSlug) {
      slug := customSlug.value;
    } else {
      slug := GenerateRandomSlug(draws);
    }
  }

  /** The state of the shortening page: the link on show, the busy flag, the recent links and their local-storage copy. */
  class IndexPage {
    var shortened: Option<ShortenedUrl>
    var loading: bool
    var history: seq<ShortenedUrl>
    var saved: Option<seq<ShortenedUrl>>
    const table: UrlTable

    ghost predicate Valid()
      reads this
    {
      |history| <= MaxHistory
    }

    /** Mounting the page: the history is loaded from local storage. */
    constructor (table: UrlTable, saved: Option<seq<ShortenedUrl>>)
      ensures Valid()
      ensures this.table == table && this.saved == saved
      ensures history == LoadHistory(saved) && shortened == None && !loading
    {
      this.table := table;
      this.saved := saved;
      history := LoadHistory(saved);
      shortened := None;
      loading := false;
    }

    /** `saveToHistory`: the new history replaces the old one and is written to local storage. */
    method SaveToHistory(link: ShortenedUrl)
      requires Valid()
      modifies this
      ensures Valid()
      ensures history == PushRecent(old(history), link) && saved == Some(history)
      ensures shortened == old(shortened) && loading == old(loading)
    {
      history := PushRecent(history, link);
      saved := Some(history);
    }

    /** The custom-slug check and the insert of `handleShorten`. */
    method ClaimSlug(processedUrl: string, slug: string, custom: bool, env: ShortenEnv) returns (outcome: ShortenOutcome)
      modifies table
      ensures outcome == ClaimResult(processedUrl, slug, custom, env, old(table.rows))
      ensures table.rows == RowsAfterShorten(outcome, old(table.rows), env)
    {
      // A taken custom slug, or a check that throws, ends the request before the insert.
      var existing := NoRow;
      if custom {
        existing := table.Select(slug, env.checkFault);
      }
      if existing == Threw {
        outcome := Failed;
      } else if existing.Found? {
        outcome := SlugTaken;
      } else {
        var inserted := table.Insert(slug, processedUrl, env.now, env.insertFails);
        if inserted.None? {
          outcome := Failed;
        } else {
          outcome := Shortened(ShortenedUrl(slug, processedUrl, env.origin + "/" + slug, Some(0), Some(inserted.value.createdAt)));
        }
      }
    }

    /** The end of a successful `handleShorten`: the new link is shown and saved to the history. */
    method ShowOutcome(outcome: ShortenOutcome)
      requires Valid()
      modifies this
      ensures Valid() && loading == old(loading)
      ensures outcome.Shortened? ==>
        shortened == Some(outcome.link) && history == PushRecent(old(history), outcome.link) && saved == Some(history)
      ensures !outcome.Shortened? ==>
        shortened == old(shortened) && history == old(history) && saved == old(saved)
    {
      if outcome.Shortened? {
        shortened := Some(outcome.link);
        SaveToHistory(outcome.link);
      }
    }

    /** The table calls of `handleShorten` and the display of their result, with the busy flag on while they run. */
    method Submit(processedUrl: string, slug: string, custom: bool, env: ShortenEnv) returns (outcome: ShortenOutcome)
      requires Valid()
      modifies this, table
      ensures Valid() && !loading
      ensures outcome == ClaimResult(processedUrl, slug, custom, env, old(table.rows))
      ensures table.rows == RowsAfterShorten(outcome, old(table.rows), env)
      ensures outcome.Shortened? ==>
        shortened == Some(outcome.link) && history == PushRecent(old(history), outcome.link) && saved == Some(history)
      ensures !outcome.Shortened? ==>
        shortened == old(shortened) && history == old(history) && saved == old(saved)
    {
      loading := true;
      outcome := ClaimSlug(processedUrl, slug, custom, env);
      ShowOutcome(outcome);
      loading := false;
    }

    /** `handleShorten`: normalise the URL, choose the slug, refuse a taken custom slug, insert, and record the link. */
    method HandleShorten(url: string, customSlug: Option<string>, env: ShortenEnv) returns (outcome: ShortenOutcome)
      requires Valid() && IsSlugDraws(env.draws)
      modifies this, table
      ensures Valid() && !loading
      ensures outcome == ShortenResult(url, customSlug, env, old(table.rows))
      ensures table.rows == RowsAfterShorten(outcome, old(table.rows), env)
      ensures outcome.Shortened? ==>
        shortened == Some(outcome.link) && history == PushRecent(old(history), outcome.link) && saved == Some(history)
      ensures !outcome.Shortened? ==>
        shortened == old(shortened) && history == old(history) && saved == old(saved)
    {
      var processedUrl := ProcessUrl(url);
      var slug := ChooseSlug(customSlug, env.draws);
      outcome := Submit(processedUrl, slug, IsCustom(customSlug), env);
    }
  }

  /** A successful shorten stores a row under a non-empty slug, holding the normalised URL and no count yet. */
  lemma ShortenedRow(url: string, customSlug: Option<string>, env: ShortenEnv, rows: map<string, Row>)
    requires IsSlugDraws(env.draws)
    requires ShortenResult(url, customSlug, env, rows).Shortened?
    ensures var link := ShortenResult(url, customSlug, env, rows).link;
      var rows1 := RowsAfterShorten(Shortened(link), rows, env);
      && link.slug != [] && link.slug !in rows && link.slug in rows1
      && rows1[link.slug] == Row(NormalizeUrl(url), None, env.now)
  {
    var slug := ChosenSlug(customSlug, env.draws);
    ClaimedRow(NormalizeUrl(url), slug, IsCustom(customSlug), env, rows);
    assert slug != [] by {
      if !IsCustom(customSlug) {
        assert |slug| == SlugLength;
      }
    }
  }

  /** A claim that succeeds stores a new row under the chosen slug, holding the processed URL and no count yet. */
  lemma ClaimedRow(processedUrl: string, slug: string, custom: bool, env: ShortenEnv, rows: map<string, Row>)
    requires ClaimResult(processedUrl, slug, custom, env, rows).Shortened?
    ensures var link := ClaimResult(processedUrl, slug, custom, env, rows).link;
      && link.slug == slug && slug !in rows
      && RowsAfterShorten(Shortened(link), rows, env) == rows[slug := Row(processedUrl, None, env.now)]
  {
  }

  /** A custom slug that was just claimed is refused the second time, and its row keeps the first URL. */
  lemma CustomSlugClaimedOnce(url1: string, url2: string, slug: string, env1: ShortenEnv, env2: ShortenEnv, rows: map<string, Row>)
    requires IsSlugDraws(env1.draws) && IsSlugDraws(env2.draws) && slug != []
    requires ShortenResult(url1, Some(slug), env1, rows).Shortened?
    requires env2.checkFault == NoFault
    ensures var rows1 := RowsAfterShorten(ShortenResult(url1, Some(slug), env1, rows), rows, env1);
      && ShortenResult(url2, Some(slug), env2, rows1) == SlugTaken
      && RowsAfterShorten(SlugTaken, rows1, env2) == rows1
      && rows1[slug].originalUrl == NormalizeUrl(url1)
  {
  }

  /** An empty custom-slug field reaches `handleShorten` as no slug, so a generated slug is used. */
  lemma EmptySlugFieldGenerates(url: string, parses: string -> bool, env: ShortenEnv, rows: map<string, Row>)
    requires IsSlugDraws(env.draws)
    requires HandleSubmit(url, "", parses).Shorten?
    ensures var sub := HandleSubmit(url, "", parses);
      var r := ShortenResult(sub.url, sub.customSlug, env, rows);
      r != SlugTaken && (r.Shortened? ==> r.link.slug == SlugFromDraws(env.draws))
  {
  }

  /** Without a retry, a generated slug that is already a key makes the request fail. */
  lemma GeneratedCollisionFails(url: string, env: ShortenEnv, rows: map<string, Row>)
    requires IsSlugDraws(env.draws) && SlugFromDraws(env.draws) in rows
    ensures ShortenResult(url, None, env, rows) == Failed
  {
  }
}
