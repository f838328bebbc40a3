/**
 * The reconciliation engine of main.py: `check` (main.py:59-74), `first_run`
 * (main.py:77-91) and `process_new_article` (main.py:94-145).
 *
 * The SQLite table of `Article` rows is the field `rows` of an `ArticleStore`,
 * in insertion order; `Article.get_or_none(link=...)` is the first row with
 * that link. A feed entry arrives already parsed, with integer timestamps and
 * its description already passed through `strip_description`. What the
 * network answers while an entry is processed (the article page's tags, or
 * the exception `fetch_article_details` raised, and the Bot API's reply) is an
 * `Io` value given beside the entry.
 */
module Engine {
  import opened Wrappers
  import Text
  import Publisher
  import Seqs

  /** A row of the `Article` table (main.py:37-44). */
  datatype Article = Article(title: string, description: string, link: string, image: string,
                             published: int, updated: int, telegramMessageId: Option<int>)

  /**
   * A parsed feed entry: `entry.title`, the stripped summary, `entry.links[0].href`,
   * `entry.links[1].href`, the two `mktime` timestamps and the raw `entry.updated` text.
   */
  datatype FeedEntry = FeedEntry(title: string, description: string, link: string, image: string,
                                 published: int, updated: int, updatedText: string)

  /**
   * What the outside world answers for one entry: the tags `fetch_article_details`
   * scraped, or `None` when it raised, and the reply to the Bot API call.
   */
  datatype Io = Io(tags: Option<seq<string>>, reply: Publisher.Reply)

  /** The store after one step, the Bot API requests made, and whether an exception escaped `check`. */
  datatype Step = Step(rows: seq<Article>, sent: seq<Publisher.Request>, aborted: bool)

  /** `telegram_message_id` is declared unique (main.py:44); SQLite lets any number of rows hold NULL. */
  ghost predicate UniqueIds(rows: seq<Article>) {
    forall i, j :: 0 <= i < |rows| && 0 <= j < |rows| && i != j && rows[i].telegramMessageId.Some? ==>
      rows[i].telegramMessageId != rows[j].telegramMessageId
  }

  predicate IdTaken(rows: seq<Article>, id: int) {
    exists j :: 0 <= j < |rows| && rows[j].telegramMessageId == Some(id)
  }

  /** `Article.get_or_none(link=link)`: the index of the first row with that link (see `LookupFindsFirst`). */
  function Lookup(rows: seq<Article>, link: string): (r: Option<nat>)
    ensures r.Some? ==> r.value < |rows|
  {
    if rows == [] then None
    else if rows[0].link == link then Some(0)
    else match Lookup(rows[1..], link)
      case None => None
      case Some(k) => Some(k + 1)
  }

  /** Row `k` is the first row of the table whose link is `link`. */
  predicate FirstWithLink(rows: seq<Article>, link: string, k: nat) {
    k < |rows| && rows[k].link == link && forall j :: 0 <= j < k ==> rows[j].link != link
  }

  predicate NoLink(rows: seq<Article>, link: string) {
    forall j :: 0 <= j < |rows| ==> rows[j].link != link
  }

  /** `get_or_none` yields the first row with the link, and nothing exactly when no row has it. */
  lemma {:induction false} LookupFindsFirst(rows: seq<Article>, link: string)
    ensures Lookup(rows, link).Some? ==> FirstWithLink(rows, link, Lookup(rows, link).value)
    ensures Lookup(rows, link).None? <==> NoLink(rows, link)
  {
    if rows != [] && rows[0].link != link {
      LookupFindsFirst(rows[1..], link);
      assert forall j :: 1 <= j < |rows| ==> rows[j] == rows[1..][j - 1];
    }
  }

  /** `reversed(feed.entries)`. */
  function Reversed<T>(s: seq<T>): (r: seq<T>)
    ensures |r| == |s|
    ensures forall i :: 0 <= i < |s| ==> r[i] == s[|s| - 1 - i]
  {
    if s == [] then [] else [s[|s| - 1]] + Reversed(s[..|s| - 1])
  }

  /** The `TelegramMessage` of main.py:97-103: the entry's link, with the title stripped. */
  function MessageOf(e: FeedEntry, tags: seq<string>): (r: Publisher.TelegramMessage)
    ensures Text.Trimmed(r.title) && |r.title| <= |e.title|
    ensures r.link == e.link && r.tags == tags
  {
    Publisher.TelegramMessage(Text.Strip(e.title), e.link, tags, e.description, e.image)
  }

  /** The row `first_run` saves for an entry (main.py:80-89): stripped title, no message id. */
  function Seed(e: FeedEntry): (r: Article)
    ensures Text.Trimmed(r.title) && r.telegramMessageId == None
    ensures r.link == e.link && r.updated == e.updated
  {
    Article(Text.Strip(e.title), e.description, e.link, e.image, e.published, e.updated, None)
  }

  /** The row `Article.create` inserts after a successful send (main.py:137-145): stripped title, the new id. */
  function Created(e: FeedEntry, id: int): (r: Article)
    ensures Text.Trimmed(r.title) && r.telegramMessageId == Some(id)
    ensures r.link == e.link && r.updated == e.updated
  {
    Article(Text.Strip(e.title), e.description, e.link, e.image, e.published, e.updated, Some(id))
  }

  /** The rows `first_run` saves, one per entry of `es`, in that order. */
  function Seeds(es: seq<FeedEntry>): (r: seq<Article>)
    ensures |r| == |es|
    ensures forall i :: 0 <= i < |es| ==> r[i] == Seed(es[i])
  {
    if es == [] then [] else Seeds(es[..|es| - 1]) + [Seed(es[|es| - 1])]
  }

  /** `first_run(feed)` on the feed's entries. */
  function FirstRunRows(entries: seq<FeedEntry>): (r: seq<Article>)
    ensures |r| == |entries|
    ensures forall i :: 0 <= i < |entries| ==> r[i] == Seed(entries[|entries| - 1 - i])
  {
    Seeds(Reversed(entries))
  }

  /**
   * `process_new_article(entry)` (main.py:94-145) on the store `rows`. It makes at
   * most one Bot API call and inserts at most one row; when an exception escapes
   * it, the store is as it was.
   */
  function ProcessSpec(rows: seq<Article>, e: FeedEntry, io: Io): (r: Step)
    ensures |r.sent| <= 1
    ensures |rows| <= |r.rows| <= |rows| + 1
    ensures r.aborted ==> r.rows == rows
    ensures io.tags.None? ==> r.aborted && r.sent == []
  {
    match io.tags
    case None => Step(rows, [], true)
    case Some(tags) =>
      var m := MessageOf(e, tags);
      match Lookup(rows, e.link)
      case Some(k) =>
        var a := rows[k];
        if !Publisher.Truthy(a.telegramMessageId) then
          Step(rows[k := a.(updated := e.updated)], [], false)
        else
          var req := Publisher.MessageRequest(m, a.telegramMessageId, Some(e.updatedText));
          if Publisher.Decide(io.reply, a.telegramMessageId).Raise? then Step(rows, [req], false)
          else Step(rows[k := a.(title := e.title, link := e.link, updated := e.updated)], [req], false)
      case None =>
        var req := Publisher.MessageRequest(m, None, None);
        var o := Publisher.Decide(io.reply, None);
        if o.Raise? then Step(rows, [req], false)
        else if IdTaken(rows, o.id) then Step(rows, [req], true)
        else Step(rows + [Created(e, o.id)], [req], false)
  }

  /**
   * The test of main.py:71, `not article or updated > article.updated`: an entry
   * whose link no row has is new, and otherwise it is newer exactly when it is
   * strictly newer than the first row with its link.
   */
  predicate IsNewer(rows: seq<Article>, e: FeedEntry)
    ensures NoLink(rows, e.link) ==> IsNewer(rows, e)
    ensures forall k: nat :: FirstWithLink(rows, e.link, k) ==> (IsNewer(rows, e) <==> e.updated > rows[k].updated)
  {
    LookupFindsFirst(rows, e.link);
    assert forall k: nat :: FirstWithLink(rows, e.link, k) ==> Lookup(rows, e.link) == Some(k) by {
      forall k: nat | FirstWithLink(rows, e.link, k)
        ensures Lookup(rows, e.link) == Some(k)
      {
        LookupIs(rows, e.link, k);
      }
    }
    match Lookup(rows, e.link)
    case None => true
    case Some(k) => e.updated > rows[k].updated
  }

  /**
   * One iteration of the loop in `check` (main.py:69-72): at most one Bot API call,
   * at most one new row, and the store as it was when an exception escapes.
   */
  function CheckStep(rows: seq<Article>, e: FeedEntry, io: Io): (r: Step)
    ensures |r.sent| <= 1
    ensures |rows| <= |r.rows| <= |rows| + 1
    ensures r.aborted ==> r.rows == rows
  {
    if IsNewer(rows, e) then ProcessSpec(rows, e, io) else Step(rows, [], false)
  }

  /** What one iteration of a cycle does to the store, given the entry and the world's answers. */
  type StepFn = (seq<Article>, FeedEntry, Io) -> Step

  /**
   * The loop of `check` over `es`, already in processing order, with `step` as its
   * body; an exception escaping an iteration ends the loop. `check` uses `CheckStep`.
   */
  function Run(step: StepFn, rows: seq<Article>, es: seq<FeedEntry>, ios: seq<Io>): (r: Step)
    requires |es| == |ios|
    ensures es != [] ==> Run(step, rows, es[..|es| - 1], ios[..|ios| - 1]).sent <= r.sent
  {
    if es == [] then Step(rows, [], false)
    else
      var prev := Run(step, rows, es[..|es| - 1], ios[..|ios| - 1]);
      if prev.aborted then prev
      else
        var s := step(prev.rows, es[|es| - 1], ios[|ios| - 1]);
        Step(s.rows, prev.sent + s.sent, s.aborted)
  }

  /**
   * `check()` (main.py:59-74); `ios[j]` is what the world answers while `entries[j]`
   * is handled. A whole check makes at most one Bot API call per feed entry.
   */
  function CheckSpec(rows: seq<Article>, entries: seq<FeedEntry>, ios: seq<Io>): (r: Step)
    requires |ios| == |entries|
    ensures |r.sent| <= |entries|
  {
    if |rows| == 0 then Step(FirstRunRows(entries), [], false)
    else
      RunSendBound(CheckStep, rows, Reversed(entries), Reversed(ios));
      Run(CheckStep, rows, Reversed(entries), Reversed(ios))
  }

  /** The `Article` table. */
  class ArticleStore {
    var rows: seq<Article>

    ghost predicate Valid()
      reads this
    {
      UniqueIds(rows)
    }

    constructor ()
      ensures Valid() && rows == []
    {
      rows := [];
    }

    /** `first_run` (main.py:77-91): one id-less row per entry, oldest entry first, and no Bot API call. */
    method FirstRun(entries: seq<FeedEntry>)
      requires Valid()
      modifies this
      ensures Valid()
      ensures rows == old(rows) + FirstRunRows(entries)
    {
      var i := 0;
      while i < |entries|
        invariant 0 <= i <= |entries|
        invariant rows == old(rows) + Seeds(Reversed(entries)[..i])
      {
        var e := entries[|entries| - 1 - i];
        FirstRunIteration(old(rows), entries, i);
        rows := rows + [Seed(e)];
        i := i + 1;
      }
      assert Reversed(entries)[..i] == Reversed(entries);
      SeedsKeepUniqueIds(old(rows), Reversed(entries));
    }

    /** `process_new_article(entry)` (main.py:94-145). */
    method ProcessNewArticle(e: FeedEntry, io: Io) returns (sent: seq<Publisher.Request>, aborted: bool)
      requires Valid()
      modifies this
      ensures Valid()
      ensures Step(rows, sent, aborted) == ProcessSpec(old(rows), e, io)
    {
      ProcessKeepsUniqueIds(rows, e, io);
      if io.tags.None? {
        return [], true;
      }
      var message := MessageOf(e, io.tags.value);
      var found := Lookup(rows, e.link);
      if found.Some? {
        var k := found.value;
        var article := rows[k];
        if !Publisher.Truthy(article.telegramMessageId) {
          rows := rows[k := article.(updated := e.updated)];
          return [], false;
        }
        var req, outcome := Publisher.SendMessage(message, article.telegramMessageId, Some(e.updatedText), io.reply);
        if outcome.Raise? {
          return [req], false;
        }
        rows := rows[k := article.(title := e.title, link := e.link, updated := e.updated)];
        return [req], false;
      } else {
        var req, outcome := Publisher.SendMessage(message, None, None, io.reply);
        if outcome.Raise? {
          return [req], false;
        }
        if IdTaken(rows, outcome.id) {
          return [req], true;
        }
        rows := rows + [Created(e, outcome.id)];
        return [req], false;
      }
    }

    /** `check()` (main.py:59-74) on the entries of one feed. */
    method Check(entries: seq<FeedEntry>, ios: seq<Io>) returns (sent: seq<Publisher.Request>, aborted: bool)
      requires |ios| == |entries|
      requires Valid()
      modifies this
      ensures Valid()
      ensures Step(rows, sent, aborted) == CheckSpec(old(rows), entries, ios)
    {
      if |rows| == 0 {
        ghost var seeded := FirstRunRows(entries);
        Seqs.AppendToEmpty(rows, seeded);
        FirstRun(entries);
        return [], false;
      }
      sent, aborted := Cycle(entries, ios);
    }

    /** One pass of the loop of `check` (main.py:69-72): the entry is processed when it is newer than its row. */
    method CheckEntry(e: FeedEntry, io: Io) returns (sent: seq<Publisher.Request>, aborted: bool)
      requires Valid()
      modifies this
      ensures Valid()
      ensures Step(rows, sent, aborted) == CheckStep(old(rows), e, io)
    {
      var found := Lookup(rows, e.link);
      var newer := found.None? || e.updated > rows[found.value].updated;
      sent, aborted := [], false;
      if newer {
        sent, aborted := ProcessNewArticle(e, io);
      }
    }

    /** The loop of `check` over `reversed(feed.entries)` (main.py:68-72), on a table that is not empty. */
    method Cycle(entries: seq<FeedEntry>, ios: seq<Io>) returns (sent: seq<Publisher.Request>, aborted: bool)
      requires |ios| == |entries|
      requires Valid()
      modifies this
      ensures Valid()
      ensures Step(rows, sent, aborted) == Run(CheckStep, old(rows), Reversed(entries), Reversed(ios))
    {
      ghost var start := rows;
      sent, aborted := [], false;
      var i := 0;
      while i < |entries|
        invariant 0 <= i <= |entries|
        invariant Valid()
        invariant Step(rows, sent, false) == Run(CheckStep, start, Reversed(entries)[..i], Reversed(ios)[..i])
      {
        ghost var before := rows;
        var s, ab := CheckEntry(entries[|entries| - 1 - i], ios[|ios| - 1 - i]);
        CheckIteration(start, entries, ios, i, before, sent, rows, s, ab);
        sent := sent + s;
        if ab {
          CheckAborts(start, entries, ios, i + 1);
          return sent, true;
        }
        i := i + 1;
      }
      assert Reversed(entries)[..i] == Reversed(entries) && Reversed(ios)[..i] == Reversed(ios);
    }
  }

  /** One pass of the loop in `ArticleStore.Cycle`: entry `n - 1 - i` is the next one `Run` takes. */
  lemma CheckIteration(start: seq<Article>, entries: seq<FeedEntry>, ios: seq<Io>, i: nat,
                       rows: seq<Article>, sent: seq<Publisher.Request>,
                       after: seq<Article>, s: seq<Publisher.Request>, ab: bool)
    requires |ios| == |entries| && i < |entries|
    requires Step(rows, sent, false) == Run(CheckStep, start, Reversed(entries)[..i], Reversed(ios)[..i])
    requires Step(after, s, ab) == CheckStep(rows, entries[|entries| - 1 - i], ios[|ios| - 1 - i])
    ensures Run(CheckStep, start, Reversed(entries)[..i + 1], Reversed(ios)[..i + 1]) == Step(after, sent + s, ab)
  {
    var r, rio := Reversed(entries), Reversed(ios);
    var e, io := entries[|entries| - 1 - i], ios[|ios| - 1 - i];
    ReversedSnoc(entries, i);
    ReversedSnoc(ios, i);
    RunSnoc(CheckStep, start, r[..i], rio[..i], e, io);
  }

  lemma CheckAborts(start: seq<Article>, entries: seq<FeedEntry>, ios: seq<Io>, j: nat)
    requires |ios| == |entries| && j <= |entries|
    requires Run(CheckStep, start, Reversed(entries)[..j], Reversed(ios)[..j]).aborted
    ensures Run(CheckStep, start, Reversed(entries), Reversed(ios))
            == Run(CheckStep, start, Reversed(entries)[..j], Reversed(ios)[..j])
  {
    AbortSticks(CheckStep, start, Reversed(entries), Reversed(ios), j);
  }

  lemma ReversedSnoc<T>(s: seq<T>, i: nat)
    requires i < |s|
    ensures Reversed(s)[..i + 1] == Reversed(s)[..i] + [s[|s| - 1 - i]]
  {
    var r := Reversed(s);
    assert r[i] == s[|s| - 1 - i];
    assert r[..i + 1] == r[..i] + [r[i]];
  }

  /** One pass of the loop in `ArticleStore.FirstRun`: entry `n - 1 - i` is seeded after the ones before it. */
  lemma FirstRunIteration(start: seq<Article>, entries: seq<FeedEntry>, i: nat)
    requires i < |entries|
    ensures start + Seeds(Reversed(entries)[..i + 1])
            == start + Seeds(Reversed(entries)[..i]) + [Seed(entries[|entries| - 1 - i])]
  {
    var r := Reversed(entries);
    ReversedSnoc(entries, i);
    SeedsSnoc(r[..i], entries[|entries| - 1 - i]);
    Seqs.Assoc(start, Seeds(r[..i]), [Seed(entries[|entries| - 1 - i])]);
  }

  lemma SeedsSnoc(es: seq<FeedEntry>, e: FeedEntry)
    ensures Seeds(es + [e]) == Seeds(es) + [Seed(e)]
  {
    assert (es + [e])[..|es|] == es;
  }

  lemma RunSnoc(step: StepFn, rows: seq<Article>, es: seq<FeedEntry>, ios: seq<Io>, e: FeedEntry, io: Io)
    requires |es| == |ios|
    ensures Run(step, rows, es + [e], ios + [io])
            == (var prev := Run(step, rows, es, ios);
                if prev.aborted then prev
                else var s := step(prev.rows, e, io); Step(s.rows, prev.sent + s.sent, s.aborted))
  {
    assert (es + [e])[..|es|] == es && (ios + [io])[..|ios|] == ios;
  }

  /** Once an exception escapes `check`, the entries after it are never looked at. */
  lemma {:induction false} AbortSticks(step: StepFn, rows: seq<Article>, es: seq<FeedEntry>, ios: seq<Io>, j: nat)
    requires |es| == |ios| && j <= |es|
    requires Run(step, rows, es[..j], ios[..j]).aborted
    ensures Run(step, rows, es, ios) == Run(step, rows, es[..j], ios[..j])
    decreases |es| - j
  {
    if j == |es| {
      assert es[..j] == es && ios[..j] == ios;
    } else {
      var es', ios' := es[..|es| - 1], ios[..|ios| - 1];
      assert es'[..j] == es[..j] && ios'[..j] == ios[..j];
      AbortSticks(step, rows, es', ios', j);
    }
  }

  /** Seeded rows carry no message id, so they never clash. */
  lemma SeedsKeepUniqueIds(rows: seq<Article>, es: seq<FeedEntry>)
    requires UniqueIds(rows)
    ensures UniqueIds(rows + Seeds(es))
  {
    var r := rows + Seeds(es);
    forall i, j | 0 <= i < |r| && 0 <= j < |r| && i != j && r[i].telegramMessageId.Some?
      ensures r[i].telegramMessageId != r[j].telegramMessageId
    {
      assert i < |rows| && r[i] == rows[i];
      if j < |rows| {
        assert r[j] == rows[j];
      } else {
        assert r[j] == Seed(es[j - |rows|]);
      }
    }
  }

  /** Every path of `process_new_article` keeps message ids unique: the insert that would clash raises instead. */
  lemma ProcessKeepsUniqueIds(rows: seq<Article>, e: FeedEntry, io: Io)
    requires UniqueIds(rows)
    ensures UniqueIds(ProcessSpec(rows, e, io).rows)
  {
    if io.tags.Some? {
      match Lookup(rows, e.link)
      case Some(k) =>
        var a := rows[k];
        UpdateKeepsUniqueIds(rows, k, a.(updated := e.updated));
        UpdateKeepsUniqueIds(rows, k, a.(title := e.title, link := e.link, updated := e.updated));
      case None =>
        var o := Publisher.Decide(io.reply, None);
        if !o.Raise? && !IdTaken(rows, o.id) {
          AppendKeepsUniqueIds(rows, Created(e, o.id));
        }
    }
  }

  lemma UpdateKeepsUniqueIds(rows: seq<Article>, k: nat, a: Article)
    requires UniqueIds(rows) && k < |rows| && a.telegramMessageId == rows[k].telegramMessageId
    ensures UniqueIds(rows[k := a])
  {
    var r := rows[k := a];
    forall i, j | 0 <= i < |r| && 0 <= j < |r| && i != j && r[i].telegramMessageId.Some?
      ensures r[i].telegramMessageId != r[j].telegramMessageId
    {
      assert r[i].telegramMessageId == rows[i].telegramMessageId;
      assert r[j].telegramMessageId == rows[j].telegramMessageId;
    }
  }

  lemma AppendKeepsUniqueIds(rows: seq<Article>, a: Article)
    requires UniqueIds(rows) && a.telegramMessageId.Some? && !IdTaken(rows, a.telegramMessageId.value)
    ensures UniqueIds(rows + [a])
  {
    var r := rows + [a];
    forall i, j | 0 <= i < |r| && 0 <= j < |r| && i != j && r[i].telegramMessageId.Some?
      ensures r[i].telegramMessageId != r[j].telegramMessageId
    {
      if i == |rows| {
        assert r[j] == rows[j];
      } else if j == |rows| {
        assert r[i] == rows[i];
      } else {
        assert r[i] == rows[i] && r[j] == rows[j];
      }
    }
  }

  /** The first row with the link is the one `get_or_none` returns. */
  lemma LookupIs(rows: seq<Article>, link: string, k: nat)
    requires FirstWithLink(rows, link, k)
    ensures Lookup(rows, link) == Some(k)
  {
    LookupFindsFirst(rows, link);
    if Lookup(rows, link).Some? {
      var k' := Lookup(rows, link).value;
      assert !(k' < k) && !(k < k');
    }
  }

  /** An entry no newer than its stored row leaves the store alone and sends nothing (main.py:69-72). */
  lemma SkipStep(rows: seq<Article>, e: FeedEntry, io: Io, k: nat)
    requires FirstWithLink(rows, e.link, k) && e.updated <= rows[k].updated
    ensures CheckStep(rows, e, io) == Step(rows, [], false)
  {
    LookupIs(rows, e.link, k);
  }

  /**
   * A row that was seeded but never sent (its id is `None` or `0`) only has its
   * `updated` moved to the entry's; nothing is sent (main.py:110-115).
   */
  lemma RepairStep(rows: seq<Article>, e: FeedEntry, io: Io, k: nat)
    requires io.tags.Some? && FirstWithLink(rows, e.link, k) && !Publisher.Truthy(rows[k].telegramMessageId)
    ensures var r := ProcessSpec(rows, e, io);
      && r.sent == [] && !r.aborted && |r.rows| == |rows|
      && r.rows[k] == rows[k].(updated := e.updated)
      && forall j :: 0 <= j < |rows| && j != k ==> r.rows[j] == rows[j]
  {
    LookupIs(rows, e.link, k);
  }

  /**
   * A row with a message id gets one Bot API call, an edit of that message when the
   * entry has an update stamp. If the call raised, the row is as it was; on any HTTP
   * reply, even a failed one, the row takes the entry's raw title and update time
   * and keeps its link and message id (main.py:117-127, main.py:231-235).
   */
  lemma EditStep(rows: seq<Article>, e: FeedEntry, io: Io, k: nat)
    requires io.tags.Some? && FirstWithLink(rows, e.link, k) && Publisher.Truthy(rows[k].telegramMessageId)
    ensures var r := ProcessSpec(rows, e, io);
      && !r.aborted && |r.sent| == 1
      && (r.sent[0].EditCaption? <==> e.updatedText != [])
      && (r.sent[0].EditCaption? ==> r.sent[0].messageId == rows[k].telegramMessageId.value)
      && (io.reply.TransportError? ==> r.rows == rows)
      && (io.reply.Http? ==> |r.rows| == |rows| && r.rows[k] == rows[k].(title := e.title, updated := e.updated))
      && (io.reply.Http? ==> forall j :: 0 <= j < |rows| && j != k ==> r.rows[j] == rows[j])
  {
    LookupIs(rows, e.link, k);
    var a := rows[k];
    assert a.(title := e.title, link := e.link, updated := e.updated) == a.(title := e.title, updated := e.updated);
  }

  /**
   * An entry with no row is sent as a new photo. If the call raised nothing is
   * stored; otherwise exactly one row is appended, carrying the id the reply gave,
   * unless another row already holds that id, when the insert raises and the
   * cycle ends (main.py:130-145, main.py:236-241).
   */
  lemma CreateStep(rows: seq<Article>, e: FeedEntry, io: Io)
    requires io.tags.Some? && NoLink(rows, e.link)
    ensures var r := ProcessSpec(rows, e, io);
      && r.sent == [Publisher.SendPhoto(Publisher.Caption(MessageOf(e, io.tags.value), None), e.image)]
      && (Publisher.Decide(io.reply, None).Raise? ==> r.rows == rows && !r.aborted)
      && (!Publisher.Decide(io.reply, None).Raise? && !IdTaken(rows, io.reply.messageId) ==>
            !r.aborted && r.rows == rows + [Created(e, io.reply.messageId)]
            && r.rows[|rows|].telegramMessageId == Some(io.reply.messageId))
      && (!Publisher.Decide(io.reply, None).Raise? && IdTaken(rows, io.reply.messageId) ==>
            r.aborted && r.rows == rows)
  {
    LookupFindsFirst(rows, e.link);
    Publisher.SendNeverSoftFails(io.reply);
  }

  /**
   * A publish that raised, through a transport error or, for a new article, through
   * `raise_for_status` on a 4xx/5xx reply (main.py:237-239), leaves the store as it
   * was, so the entry is still newer than its row and the next cycle makes the very
   * same call (main.py:119-121, main.py:134-136).
   */
  lemma FailedPublishIsRetried(rows: seq<Article>, e: FeedEntry, io: Io, next: Io)
    requires IsNewer(rows, e) && io.tags.Some?
    requires io.reply.TransportError? || (NoLink(rows, e.link) && Publisher.Decide(io.reply, None).Raise?)
    requires CheckStep(rows, e, io).sent != [] && next.tags == io.tags
    ensures CheckStep(rows, e, io).rows == rows && IsNewer(CheckStep(rows, e, io).rows, e)
    ensures CheckStep(rows, e, next).sent == CheckStep(rows, e, io).sent
  {
    LookupFindsFirst(rows, e.link);
  }

  /** What the engine never takes back from a row: its link, message id, publication data, and how recent it is. */
  predicate Kept(a: Article, b: Article) {
    && b.link == a.link && b.telegramMessageId == a.telegramMessageId
    && b.published == a.published && b.description == a.description && b.image == a.image
    && b.updated >= a.updated
  }

  /** Every row of `before` is still in place in `after`, kept; rows are only ever appended. */
  predicate Persists(before: seq<Article>, after: seq<Article>) {
    |before| <= |after| && forall k :: 0 <= k < |before| ==> Kept(before[k], after[k])
  }

  lemma PersistsTrans(a: seq<Article>, b: seq<Article>, c: seq<Article>)
    requires Persists(a, b) && Persists(b, c)
    ensures Persists(a, c)
  {
    forall k | 0 <= k < |a|
      ensures Kept(a[k], c[k])
    {
      assert Kept(a[k], b[k]) && Kept(b[k], c[k]);
    }
  }

  /**
   * An iteration of `check` never rewrites a row's link, message id, publication
   * time, description or image, and never moves its `updated` back: an existing
   * row is touched only when the entry is strictly newer (main.py:71).
   */
  lemma StepPersists(rows: seq<Article>, e: FeedEntry, io: Io)
    ensures Persists(rows, CheckStep(rows, e, io).rows)
  {
    if IsNewer(rows, e) && io.tags.Some? {
      LookupFindsFirst(rows, e.link);
      match Lookup(rows, e.link)
      case Some(k) =>
        if Publisher.Truthy(rows[k].telegramMessageId) {
          EditStep(rows, e, io, k);
        } else {
          RepairStep(rows, e, io, k);
        }
      case None =>
        CreateStep(rows, e, io);
        if io.reply.Http? {
          AppendPersists(rows, Created(e, io.reply.messageId));
        }
    }
  }

  lemma AppendPersists(rows: seq<Article>, a: Article)
    ensures Persists(rows, rows + [a])
  {
    assert forall k :: 0 <= k < |rows| ==> (rows + [a])[k] == rows[k];
  }

  lemma StepKeepsUniqueIds(rows: seq<Article>, e: FeedEntry, io: Io)
    requires UniqueIds(rows)
    ensures UniqueIds(CheckStep(rows, e, io).rows)
  {
    ProcessKeepsUniqueIds(rows, e, io);
  }

  /** Whatever holds between the store before and after every step holds across the whole loop. */
  lemma {:induction false} RunRelates(step: StepFn, rel: (seq<Article>, seq<Article>) -> bool,
                                      rows: seq<Article>, es: seq<FeedEntry>, ios: seq<Io>)
    requires |es| == |ios|
    requires forall a :: rel(a, a)
    requires forall a, b, c :: rel(a, b) && rel(b, c) ==> rel(a, c)
    requires forall r, e, io :: rel(r, step(r, e, io).rows)
    ensures rel(rows, Run(step, rows, es, ios).rows)
  {
    if es != [] {
      var prev := Run(step, rows, es[..|es| - 1], ios[..|ios| - 1]);
      RunRelates(step, rel, rows, es[..|es| - 1], ios[..|ios| - 1]);
      if !prev.aborted {
        var s := step(prev.rows, es[|es| - 1], ios[|ios| - 1]);
        assert rel(prev.rows, s.rows);
      }
    }
  }

  /** A loop whose steps send at most one request each sends at most one per entry. */
  lemma {:induction false} RunSendBound(step: StepFn, rows: seq<Article>, es: seq<FeedEntry>, ios: seq<Io>)
    requires |es| == |ios|
    requires forall r, e, io :: |step(r, e, io).sent| <= 1
    ensures |Run(step, rows, es, ios).sent| <= |es|
  {
    if es != [] {
      var prev := Run(step, rows, es[..|es| - 1], ios[..|ios| - 1]);
      RunSendBound(step, rows, es[..|es| - 1], ios[..|ios| - 1]);
      if !prev.aborted {
        assert |step(prev.rows, es[|es| - 1], ios[|ios| - 1]).sent| <= 1;
      }
    }
  }

  /** On an empty table `check` seeds one id-less row per entry, oldest entry first, and sends nothing (main.py:64-66, main.py:77-90). */
  lemma FirstRunShape(entries: seq<FeedEntry>, ios: seq<Io>)
    requires |ios| == |entries|
    ensures var r := CheckSpec([], entries, ios);
      && r.sent == [] && !r.aborted && |r.rows| == |entries|
      && (forall i :: 0 <= i < |entries| ==> r.rows[i] == Seed(entries[|entries| - 1 - i]))
      && (forall i :: 0 <= i < |entries| ==> r.rows[i].telegramMessageId == None)
  {
  }

  /** A feed that lists the newest entry first is seeded in ascending publication order. */
  lemma FirstRunChronological(entries: seq<FeedEntry>)
    requires forall i, j :: 0 <= i <= j < |entries| ==> entries[j].published <= entries[i].published
    ensures forall i, j :: 0 <= i <= j < |entries| ==> FirstRunRows(entries)[i].published <= FirstRunRows(entries)[j].published
  {
  }

  /** A whole `check` keeps the message ids unique. */
  lemma CheckKeepsUniqueIds(rows: seq<Article>, entries: seq<FeedEntry>, ios: seq<Io>)
    requires |ios| == |entries| && UniqueIds(rows)
    ensures UniqueIds(CheckSpec(rows, entries, ios).rows)
  {
    if |rows| == 0 {
      SeedsKeepUniqueIds(rows, Reversed(entries));
    } else {
      forall r, e, io | UniqueIds(r)
        ensures UniqueIds(CheckStep(r, e, io).rows)
      {
        StepKeepsUniqueIds(r, e, io);
      }
      RunRelates(CheckStep, (a, b) => UniqueIds(a) ==> UniqueIds(b), rows, Reversed(entries), Reversed(ios));
    }
  }

  /**
   * A whole `check` only appends rows and never takes back what `Kept` names,
   * so `updated` never decreases and a message id, once set, is never cleared.
   */
  lemma CheckPersists(rows: seq<Article>, entries: seq<FeedEntry>, ios: seq<Io>)
    requires |ios| == |entries|
    ensures Persists(rows, CheckSpec(rows, entries, ios).rows)
  {
    if |rows| != 0 {
      forall r, e, io
        ensures Persists(r, CheckStep(r, e, io).rows)
      {
        StepPersists(r, e, io);
      }
      forall a, b, c | Persists(a, b) && Persists(b, c)
        ensures Persists(a, c)
      {
        PersistsTrans(a, b, c);
      }
      RunRelates(CheckStep, Persists, rows, Reversed(entries), Reversed(ios));
    }
  }
}
