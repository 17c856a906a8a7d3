/**
 The pull-list pass: for every issue that is expected, followed, not owned and not on the
 download queue, ask the sources and queue the best offer.
*/
module Sweep {
  import opened Wrappers
  import DownloadQueue

  type SeriesId = string
  type IssueNumber = string

  /** `issue_numbers_match`. */
  type Agreement = (string, string) -> bool

  // ------------------------------------------------------------------ ranking the offers

  /** An offer. `words` are the words of its title. */
  datatype Candidate = Candidate(
    slug: string, downloadId: string, words: seq<string>, confidence: Option<real>, size: Option<nat>
  )

  function TrimHashes(word: string): string {
    if word != [] && word[0] == '#' then TrimHashes(word[1..]) else word
  }

  predicate NumberAgrees(agree: Agreement, wanted: Option<IssueNumber>, c: Candidate) {
    wanted.Some? && exists k :: 0 <= k < |c.words| && agree(TrimHashes(c.words[k]), wanted.value)
  }

  function Confidence(c: Candidate): real {
    c.confidence.UnwrapOr(0.0)
  }

  /** Absent sizes come before all others. */
  predicate SizeAtMost(a: Option<nat>, b: Option<nat>) {
    a.None? || (b.Some? && a.value <= b.value)
  }

  /** The order the offers are ranked in: agreement, then confidence, then size. */
  predicate AtMost(agree: Agreement, wanted: Option<IssueNumber>, a: Candidate, b: Candidate) {
    var (x, y) := (NumberAgrees(agree, wanted, a), NumberAgrees(agree, wanted, b));
    if x != y then y
    else if Confidence(a) != Confidence(b) then Confidence(a) < Confidence(b)
    else SizeAtMost(a.size, b.size)
  }

  /** `best_candidate`. */
  function BestCandidate(agree: Agreement, wanted: Option<IssueNumber>, offers: seq<Candidate>): Option<Candidate> {
    if offers == [] then None
    else
      var n := |offers| - 1;
      var best := BestCandidate(agree, wanted, offers[..n]);
      if best.Some? && !AtMost(agree, wanted, best.value, offers[n]) then best else Some(offers[n])
  }

  /** No offer ranks above this one, and no later one ranks level with it. */
  ghost predicate LastGreatest(agree: Agreement, wanted: Option<IssueNumber>, offers: seq<Candidate>, k: int) {
    && 0 <= k < |offers|
    && (forall j :: 0 <= j < |offers| ==> AtMost(agree, wanted, offers[j], offers[k]))
    && (forall j :: k < j < |offers| ==> !AtMost(agree, wanted, offers[k], offers[j]))
  }

  /** The best offer is the greatest, and among equals the last. */
  lemma {:induction false} BestIsLastGreatest(agree: Agreement, wanted: Option<IssueNumber>, offers: seq<Candidate>)
    returns (k: nat)
    requires offers != []
    ensures LastGreatest(agree, wanted, offers, k) && BestCandidate(agree, wanted, offers) == Some(offers[k])
  {
    var n := |offers| - 1;
    k := n;
    if n != 0 {
      var b := BestIsLastGreatest(agree, wanted, offers[..n]);
      assert forall j :: 0 <= j < n ==> offers[..n][j] == offers[j];
      if AtMost(agree, wanted, offers[b], offers[n]) {
        forall j | 0 <= j < n ensures AtMost(agree, wanted, offers[j], offers[n]) {
          assert AtMost(agree, wanted, offers[..n][j], offers[b]);
        }
      } else {
        k := b;
        forall j | b < j < n ensures !AtMost(agree, wanted, offers[b], offers[j]) {
          assert !AtMost(agree, wanted, offers[b], offers[..n][j]);
        }
        forall j | 0 <= j < n ensures AtMost(agree, wanted, offers[j], offers[b]) {
          assert AtMost(agree, wanted, offers[..n][j], offers[b]);
        }
      }
    }
  }

  /** A number-agreeing offer is picked whenever there is one, and then it is the most
      confident of those. */
  lemma BestAgreesWheneverOneDoes(agree: Agreement, wanted: Option<IssueNumber>, offers: seq<Candidate>, k: nat)
    requires k < |offers| && NumberAgrees(agree, wanted, offers[k])
    ensures
      var best := BestCandidate(agree, wanted, offers);
      && best.Some? && best.value in offers
      && NumberAgrees(agree, wanted, best.value)
      && Confidence(offers[k]) <= Confidence(best.value)
  {
    var b := BestIsLastGreatest(agree, wanted, offers);
    assert AtMost(agree, wanted, offers[k], offers[b]);
  }

  /** With no number-agreeing offer, or among those that agree, the most confident is picked, and of
      equally confident ones the largest; an offer without a size is the smallest. */
  lemma BestIsMostConfidentThenLargest(
    agree: Agreement, wanted: Option<IssueNumber>, offers: seq<Candidate>, best: Candidate, k: nat
  )
    requires BestCandidate(agree, wanted, offers) == Some(best) && k < |offers|
    requires NumberAgrees(agree, wanted, offers[k]) == NumberAgrees(agree, wanted, best)
    ensures offers[k].confidence.UnwrapOr(0.0) <= best.confidence.UnwrapOr(0.0)
    ensures offers[k].confidence.UnwrapOr(0.0) == best.confidence.UnwrapOr(0.0) && offers[k].size.Some? ==>
      best.size.Some? && offers[k].size.value <= best.size.value
  {
    var b := BestIsLastGreatest(agree, wanted, offers);
    assert AtMost(agree, wanted, offers[k], offers[b]);
  }

  /** The hashes in front of a word go, all of them, and nothing else. */
  lemma {:induction false} TrimmedWord(word: string) returns (n: nat)
    ensures n <= |word| && TrimHashes(word) == word[n..]
    ensures (forall i :: 0 <= i < n ==> word[i] == '#') && (n < |word| ==> word[n] != '#')
  {
    n := 0;
    if word != [] && word[0] == '#' {
      var m := TrimmedWord(word[1..]);
      n := m + 1;
    }
  }

  // --------------------------------------------------------------------- what is owned

  datatype Book = Book(id: string, series: Option<SeriesId>, deleted: bool)

  /** `number` is the stored decimal in its normal form. */
  datatype Metadata = Metadata(media: Option<string>, number: Option<IssueNumber>)

  ghost predicate Owns(
    books: seq<Book>, metadata: seq<Metadata>, ids: set<SeriesId>, series: SeriesId, number: IssueNumber
  ) {
    exists b, m ::
      && 0 <= b < |books| && 0 <= m < |metadata|
      && !books[b].deleted && books[b].series == Some(series) && series in ids
      && metadata[m] == Metadata(Some(books[b].id), Some(number))
  }

  /** `owned_numbers`. Book ids are a primary key. */
  method OwnedNumbers(books: seq<Book>, metadata: seq<Metadata>, ids: set<SeriesId>)
    returns (owned: map<SeriesId, seq<IssueNumber>>)
    requires forall i, j :: 0 <= i < j < |books| ==> books[i].id != books[j].id
    ensures forall series, number ::
      series in owned && number in owned[series] <==> Owns(books, metadata, ids, series, number)
  {
    owned := map[];
    if ids == {} {
      return;
    }
    var seriesByMedia: map<string, SeriesId> := map[];
    for i := 0 to |books|
      invariant MapsBooks(books[..i], ids, seriesByMedia)
    {
      if books[i].series.Some? && books[i].series.value in ids && !books[i].deleted {
        NextBook(books, i, ids, seriesByMedia);
        seriesByMedia := seriesByMedia[books[i].id := books[i].series.value];
      } else {
        SkippedBook(books, i, ids, seriesByMedia);
      }
    }
    for i := 0 to |metadata|
      invariant forall series :: Numbers(owned, series) == NumbersFound(seriesByMedia, metadata[..i], series)
    {
      var row := metadata[i];
      assert metadata[..i + 1][..i] == metadata[..i];
      if row.media.Some? && row.number.Some? && row.media.value in seriesByMedia {
        var series := seriesByMedia[row.media.value];
        owned := owned[series := Numbers(owned, series) + [row.number.value]];
      }
    }
    assert metadata[..|metadata|] == metadata && books[..|books|] == books;
    forall series, number
      ensures series in owned && number in owned[series] <==> Owns(books, metadata, ids, series, number)
    {
      FoundIffOwned(books, metadata, ids, seriesByMedia, series, number);
    }
  }

  function Numbers(owned: map<SeriesId, seq<IssueNumber>>, series: SeriesId): seq<IssueNumber> {
    if series in owned then owned[series] else []
  }

  /** The numbers of one series' books, in the order of their metadata. */
  function NumbersFound(seriesByMedia: map<string, SeriesId>, metadata: seq<Metadata>, series: SeriesId)
    : seq<IssueNumber>
  {
    if metadata == [] then []
    else
      var (before, row) := (metadata[..|metadata| - 1], metadata[|metadata| - 1]);
      NumbersFound(seriesByMedia, before, series) +
      if && row.media.Some? && row.number.Some?
         && row.media.value in seriesByMedia && seriesByMedia[row.media.value] == series
      then [row.number.value] else []
  }

  lemma {:induction false} FoundAt(
    seriesByMedia: map<string, SeriesId>, metadata: seq<Metadata>, series: SeriesId, number: IssueNumber
  )
    ensures number in NumbersFound(seriesByMedia, metadata, series) <==>
      exists m :: 0 <= m < |metadata| && IsNumberOf(seriesByMedia, metadata[m], series, number)
  {
    if metadata != [] {
      var (before, row) := (metadata[..|metadata| - 1], metadata[|metadata| - 1]);
      FoundAt(seriesByMedia, before, series, number);
      if IsNumberOf(seriesByMedia, row, series, number) {
        assert metadata[|metadata| - 1] == row;
      }
      if m :| 0 <= m < |before| && IsNumberOf(seriesByMedia, before[m], series, number) {
        assert metadata[m] == before[m];
      }
      if m :| 0 <= m < |before| && IsNumberOf(seriesByMedia, metadata[m], series, number) {
        assert metadata[m] == before[m];
      }
    }
  }

  predicate IsNumberOf(seriesByMedia: map<string, SeriesId>, row: Metadata, series: SeriesId, number: IssueNumber) {
    && row.media.Some? && row.number == Some(number)
    && row.media.value in seriesByMedia && seriesByMedia[row.media.value] == series
  }

  /** The map holds the series of exactly the live books of these series. */
  ghost predicate MapsBooks(books: seq<Book>, ids: set<SeriesId>, seriesByMedia: map<string, SeriesId>) {
    && (forall id :: id in seriesByMedia ==>
         exists b :: 0 <= b < |books| && books[b] == Book(id, Some(seriesByMedia[id]), false) && seriesByMedia[id] in ids)
    && (forall b :: 0 <= b < |books| && !books[b].deleted && books[b].series.Some? && books[b].series.value in ids ==>
         books[b].id in seriesByMedia && seriesByMedia[books[b].id] == books[b].series.value)
  }

  lemma NextBook(books: seq<Book>, i: nat, ids: set<SeriesId>, seriesByMedia: map<string, SeriesId>)
    requires i < |books| && MapsBooks(books[..i], ids, seriesByMedia)
    requires forall j :: 0 <= j < i ==> books[j].id != books[i].id
    requires !books[i].deleted && books[i].series.Some? && books[i].series.value in ids
    ensures MapsBooks(books[..i + 1], ids, seriesByMedia[books[i].id := books[i].series.value])
  {
    var after := seriesByMedia[books[i].id := books[i].series.value];
    var done := books[..i + 1];
    forall id | id in after
      ensures exists b :: 0 <= b < |done| && done[b] == Book(id, Some(after[id]), false) && after[id] in ids
    {
      if id == books[i].id {
        assert done[i] == Book(id, Some(after[id]), false);
      } else {
        var b :| 0 <= b < i && books[..i][b] == Book(id, Some(seriesByMedia[id]), false);
        assert done[b] == books[..i][b];
      }
    }
    assert forall b :: 0 <= b < i ==> done[b] == books[..i][b];
  }

  lemma SkippedBook(books: seq<Book>, i: nat, ids: set<SeriesId>, seriesByMedia: map<string, SeriesId>)
    requires i < |books| && MapsBooks(books[..i], ids, seriesByMedia)
    requires books[i].deleted || books[i].series.None? || books[i].series.value !in ids
    ensures MapsBooks(books[..i + 1], ids, seriesByMedia)
  {
    var done := books[..i + 1];
    assert forall b :: 0 <= b < i ==> done[b] == books[..i][b];
    forall id | id in seriesByMedia
      ensures exists b :: 0 <= b < |done| && done[b] == Book(id, Some(seriesByMedia[id]), false)
    {
      var b :| 0 <= b < i && books[..i][b] == Book(id, Some(seriesByMedia[id]), false);
      assert done[b] == books[..i][b];
    }
  }

  lemma FoundIffOwned(
    books: seq<Book>, metadata: seq<Metadata>, ids: set<SeriesId>, seriesByMedia: map<string, SeriesId>,
    series: SeriesId, number: IssueNumber
  )
    requires MapsBooks(books, ids, seriesByMedia)
    ensures number in NumbersFound(seriesByMedia, metadata, series) <==> Owns(books, metadata, ids, series, number)
  {
    FoundAt(seriesByMedia, metadata, series, number);
    if m :| 0 <= m < |metadata| && IsNumberOf(seriesByMedia, metadata[m], series, number) {
      var id := metadata[m].media.value;
      var b :| 0 <= b < |books| && books[b] == Book(id, Some(series), false) && series in ids;
      assert metadata[m] == Metadata(Some(books[b].id), Some(number));
    }
    if Owns(books, metadata, ids, series, number) {
      var b, m :|
        && 0 <= b < |books| && 0 <= m < |metadata|
        && !books[b].deleted && books[b].series == Some(series) && series in ids
        && metadata[m] == Metadata(Some(books[b].id), Some(number));
      assert IsNumberOf(seriesByMedia, metadata[m], series, number);
    }
  }

  // ---------------------------------------------------------------------- the pass itself

  datatype Entry = Entry(series: Option<SeriesId>, number: Option<IssueNumber>, released: int)

  datatype Row = Row(
    series: Option<SeriesId>, number: Option<IssueNumber>, slug: string, downloadId: string,
    size: Option<nat>, status: DownloadQueue.Status, progress: nat
  )

  datatype Config = Config(maxPerRun: nat, autoApprove: bool)

  /** What a pass reads before it starts looking. */
  datatype Facts = Facts(
    agree: Agreement, followed: set<SeriesId>, names: set<SeriesId>,
    owned: map<SeriesId, seq<IssueNumber>>, queued: set<(SeriesId, string)>
  )

  /** What the sources and the database answer for one entry. */
  datatype Answer = Answer(search: Result<seq<Candidate>, ()>, insertOk: bool)

  datatype Summary = Summary(wanted: nat, found: nat, queued: nat)

  /** The queue and the totals during a pass. `ok` is false once an insert has failed. */
  datatype State = State(queue: seq<Row>, totals: Summary, ok: bool)

  const LOOKBACK_DAYS := 60
  const LOOKAHEAD_DAYS := 1

  /** The entries of followed series whose release day is in the window. */
  function Expected(calendar: seq<Entry>, followed: set<SeriesId>, today: int): seq<Entry> {
    if calendar == [] then []
    else
      var (before, e) := (calendar[..|calendar| - 1], calendar[|calendar| - 1]);
      Expected(before, followed, today) +
      if && e.series.Some? && e.series.value in followed
         && today - LOOKBACK_DAYS <= e.released <= today + LOOKAHEAD_DAYS
      then [e] else []
  }

  /** The series and numbers on the queue, whatever the state of their rows. */
  function Keys(queue: seq<Row>): set<(SeriesId, string)> {
    set r | r in queue && r.series.Some? :: (r.series.value, r.number.UnwrapOr(""))
  }

  function Key(e: Entry): (SeriesId, string)
    requires e.series.Some?
  {
    (e.series.value, e.number.UnwrapOr(""))
  }

  predicate AlreadyOwned(facts: Facts, series: SeriesId, number: Option<IssueNumber>) {
    && number.Some? && series in facts.owned
    && exists have :: have in facts.owned[series] && facts.agree(have, number.value)
  }

  /** An entry worth asking the sources about. */
  predicate IsWanted(facts: Facts, e: Entry) {
    && e.series.Some? && e.series.value in facts.names
    && !AlreadyOwned(facts, e.series.value, e.number)
    && Key(e) !in facts.queued
  }

  function Queued(config: Config, e: Entry, best: Candidate): Row {
    Row(e.series, e.number, best.slug, best.downloadId, best.size,
        if config.autoApprove then DownloadQueue.Approved else DownloadQueue.Pending, 0)
  }

  predicate HasRow(queue: seq<Row>, slug: string, downloadId: string) {
    exists k :: 0 <= k < |queue| && queue[k].slug == slug && queue[k].downloadId == downloadId
  }

  /** The insert: a row for the same file is left as it is. */
  function InsertOrIgnore(queue: seq<Row>, row: Row): seq<Row> {
    if HasRow(queue, row.slug, row.downloadId) then queue else queue + [row]
  }

  /** One turn of the loop. */
  function Visit(facts: Facts, config: Config, e: Entry, answer: Answer, s: State): State {
    if !s.ok || s.totals.wanted >= config.maxPerRun || !IsWanted(facts, e) then s
    else
      var totals := s.totals.(wanted := s.totals.wanted + 1);
      var best := if answer.search.Ok? then BestCandidate(facts.agree, e.number, answer.search.value) else None;
      if best.None? then s.(totals := totals)
      else
        var found := totals.(found := totals.found + 1);
        if !answer.insertOk then s.(totals := found, ok := false)
        else State(InsertOrIgnore(s.queue, Queued(config, e, best.value)), found.(queued := found.queued + 1), true)
  }

  /** The whole loop. */
  function Visits(facts: Facts, config: Config, entries: seq<Entry>, answers: seq<Answer>, s: State): State
    requires |answers| == |entries|
  {
    if entries == [] then s
    else
      var n := |entries| - 1;
      Visit(facts, config, entries[n], answers[n], Visits(facts, config, entries[..n], answers[..n], s))
  }

  function Start(queue: seq<Row>): State {
    State(queue, Summary(0, 0, 0), true)
  }

  class Sweeper {
    var queue: seq<Row>
    /** How often the queue job has been asked for. */
    var enqueued: nat

    constructor (queue: seq<Row>)
      ensures this.queue == queue && enqueued == 0
    {
      this.queue, this.enqueued := queue, 0;
    }

    /** `sweep`, once everything it needs has been read. */
    method Run(
      facts: Facts, config: Config, calendar: seq<Entry>, today: int, answers: seq<Answer>, enqueueOk: bool
    )
      returns (r: Result<Summary, ()>)
      requires facts.queued == Keys(queue)
      requires |answers| == |Expected(calendar, facts.followed, today)|
      modifies this
      ensures facts.followed == {} ==>
        r == Ok(Summary(0, 0, 0)) && queue == old(queue) && enqueued == old(enqueued)
      ensures facts.followed != {} ==>
        var end := Visits(facts, config, Expected(calendar, facts.followed, today), answers, Start(old(queue)));
        var asks := end.ok && config.autoApprove && end.totals.queued > 0;
        && queue == end.queue
        && enqueued == old(enqueued) + (if asks && enqueueOk then 1 else 0)
        && r == (if end.ok && (asks ==> enqueueOk) then Ok(end.totals) else Err(()))
    {
      if facts.followed == {} {
        return Ok(Summary(0, 0, 0));
      }
      var expected := Expected(calendar, facts.followed, today);
      var totals, ok := VisitAll(facts, config, expected, answers);
      if !ok {
        return Err(());
      }
      if config.autoApprove && totals.queued > 0 {
        if !enqueueOk {
          return Err(());
        }
        enqueued := enqueued + 1;
      }
      r := Ok(totals);
    }

    /** The loop of `sweep`: up to the cap, or the first insert that fails. */
    method VisitAll(facts: Facts, config: Config, expected: seq<Entry>, answers: seq<Answer>)
      returns (totals: Summary, ok: bool)
      requires |answers| == |expected|
      modifies this`queue
      ensures State(queue, totals, ok) == Visits(facts, config, expected, answers, Start(old(queue)))
    {
      totals := Summary(0, 0, 0);
      ghost var start := Start(queue);
      var i := 0;
      while i < |expected| && totals.wanted < config.maxPerRun
        invariant 0 <= i <= |expected|
        invariant State(queue, totals, true) == Visits(facts, config, expected[..i], answers[..i], start)
      {
        var e, answer := expected[i], answers[i];
        NextVisit(facts, config, expected, answers, start, i);
        i := i + 1;
        if !IsWanted(facts, e) {
          continue;
        }
        totals := totals.(wanted := totals.wanted + 1);
        if answer.search.Err? {
          continue;
        }
        var best := BestCandidate(facts.agree, e.number, answer.search.value);
        if best.None? {
          continue;
        }
        totals := totals.(found := totals.found + 1);
        if !answer.insertOk {
          Stopped(facts, config, expected, answers, start, i);
          return totals, false;
        }
        queue := InsertOrIgnore(queue, Queued(config, e, best.value));
        totals := totals.(queued := totals.queued + 1);
      }
      Stopped(facts, config, expected, answers, start, i);
      ok := true;
    }
  }

  lemma NextVisit(facts: Facts, config: Config, entries: seq<Entry>, answers: seq<Answer>, s: State, i: nat)
    requires |answers| == |entries| && i < |entries|
    ensures Visits(facts, config, entries[..i + 1], answers[..i + 1], s)
            == Visit(facts, config, entries[i], answers[i], Visits(facts, config, entries[..i], answers[..i], s))
  {
    assert entries[..i + 1][..i] == entries[..i] && answers[..i + 1][..i] == answers[..i];
  }

  /** After the cap, or a failed insert, nothing more happens. */
  lemma {:induction false} Stopped(
    facts: Facts, config: Config, entries: seq<Entry>, answers: seq<Answer>, s: State, i: nat
  )
    requires |answers| == |entries| && i <= |entries|
    requires
      var now := Visits(facts, config, entries[..i], answers[..i], s);
      i == |entries| || !now.ok || now.totals.wanted >= config.maxPerRun
    ensures Visits(facts, config, entries, answers, s) == Visits(facts, config, entries[..i], answers[..i], s)
    decreases |entries| - i
  {
    if i == |entries| {
      assert entries[..i] == entries && answers[..i] == answers;
    } else {
      NextVisit(facts, config, entries, answers, s, i);
      Stopped(facts, config, entries, answers, s, i + 1);
    }
  }

  // ------------------------------------------------------------------- what a pass keeps

  /** This row was made for this entry, from the best of the offers for it. */
  ghost predicate MadeFor(facts: Facts, config: Config, e: Entry, answer: Answer, row: Row) {
    && IsWanted(facts, e) && answer.search.Ok?
    && var best := BestCandidate(facts.agree, e.number, answer.search.value);
       best.Some? && row == Queued(config, e, best.value)
  }

  ghost predicate IsMade(facts: Facts, config: Config, entries: seq<Entry>, answers: seq<Answer>, row: Row)
    requires |answers| == |entries|
  {
    exists i :: 0 <= i < |entries| && MadeFor(facts, config, entries[i], answers[i], row)
  }

  ghost predicate UniqueFiles(queue: seq<Row>) {
    forall j, k :: 0 <= j < k < |queue| ==> (queue[j].slug, queue[j].downloadId) != (queue[k].slug, queue[k].downloadId)
  }

  /** What a pass over these entries has done to the queue it started with. */
  ghost predicate Kept(
    facts: Facts, config: Config, entries: seq<Entry>, answers: seq<Answer>, before: seq<Row>, s: State
  )
    requires |answers| == |entries|
  {
    && before <= s.queue
    && |s.queue| - |before| <= s.totals.queued <= s.totals.found <= s.totals.wanted <= config.maxPerRun
    && s.totals.found == s.totals.queued + (if s.ok then 0 else 1)
    && (forall k :: |before| <= k < |s.queue| ==> IsMade(facts, config, entries, answers, s.queue[k]))
    && (UniqueFiles(before) ==> UniqueFiles(s.queue))
  }

  lemma {:induction false} PassKeeps(
    facts: Facts, config: Config, entries: seq<Entry>, answers: seq<Answer>, before: seq<Row>
  )
    requires |answers| == |entries|
    ensures Kept(facts, config, entries, answers, before, Visits(facts, config, entries, answers, Start(before)))
  {
    if entries != [] {
      var n := |entries| - 1;
      PassKeeps(facts, config, entries[..n], answers[..n], before);
      VisitKeeps(facts, config, entries, answers, before,
                 Visits(facts, config, entries[..n], answers[..n], Start(before)));
    }
  }

  lemma VisitKeeps(
    facts: Facts, config: Config, entries: seq<Entry>, answers: seq<Answer>, before: seq<Row>, s: State
  )
    requires |answers| == |entries| > 0
    requires
      var n := |entries| - 1;
      Kept(facts, config, entries[..n], answers[..n], before, s)
    ensures
      var n := |entries| - 1;
      Kept(facts, config, entries, answers, before, Visit(facts, config, entries[n], answers[n], s))
  {
    var n := |entries| - 1;
    var after := Visit(facts, config, entries[n], answers[n], s);
    forall k | |before| <= k < |after.queue| ensures IsMade(facts, config, entries, answers, after.queue[k]) {
      if k < |s.queue| {
        assert IsMade(facts, config, entries[..n], answers[..n], s.queue[k]);
        var i :| 0 <= i < n && MadeFor(facts, config, entries[..n][i], answers[..n][i], s.queue[k]);
        assert MadeFor(facts, config, entries[i], answers[i], after.queue[k]);
      } else {
        assert MadeFor(facts, config, entries[n], answers[n], after.queue[k]);
      }
    }
  }

  lemma {:induction false} ExpectedAreInWindow(calendar: seq<Entry>, followed: set<SeriesId>, today: int, e: Entry)
    ensures e in Expected(calendar, followed, today) <==>
      && e in calendar && e.series.Some? && e.series.value in followed
      && today - LOOKBACK_DAYS <= e.released <= today + LOOKAHEAD_DAYS
  {
    if calendar != [] {
      ExpectedAreInWindow(calendar[..|calendar| - 1], followed, today, e);
    }
  }

  /**
   The pass as a whole. Every row that was on the queue is still there, unchanged; a row that
   was added is for an issue of a followed series in the window that was neither owned nor on
   the queue; and the totals are in order.
  */
  lemma SweepAddsOnlyWhatIsMissing(
    facts: Facts, config: Config, calendar: seq<Entry>, today: int, answers: seq<Answer>, before: seq<Row>
  )
    requires facts.queued == Keys(before)
    requires |answers| == |Expected(calendar, facts.followed, today)|
    ensures
      var end := Visits(facts, config, Expected(calendar, facts.followed, today), answers, Start(before));
      && before <= end.queue
      && |end.queue| - |before| <= end.totals.queued <= end.totals.found <= end.totals.wanted <= config.maxPerRun
      && (end.ok ==> end.totals.queued == end.totals.found)
      && (UniqueFiles(before) ==> UniqueFiles(end.queue))
      && forall k :: |before| <= k < |end.queue| ==>
           var row := end.queue[k];
           && row.series.Some? && row.series.value in facts.followed && row.series.value in facts.names
           && !AlreadyOwned(facts, row.series.value, row.number)
           && (row.series.value, row.number.UnwrapOr("")) !in Keys(before)
           && row.status == (if config.autoApprove then DownloadQueue.Approved else DownloadQueue.Pending)
           && row.progress == 0
           && (exists i, b :: 0 <= i < |answers| && answers[i].search.Ok? && 0 <= b < |answers[i].search.value|
                && row.slug == answers[i].search.value[b].slug
                && row.downloadId == answers[i].search.value[b].downloadId
                && row.size == answers[i].search.value[b].size)
           && exists e :: e in calendar && e.series == row.series && e.number == row.number
                && today - LOOKBACK_DAYS <= e.released <= today + LOOKAHEAD_DAYS
  {
    var entries := Expected(calendar, facts.followed, today);
    var end := Visits(facts, config, entries, answers, Start(before));
    PassKeeps(facts, config, entries, answers, before);
    forall k | |before| <= k < |end.queue|
      ensures end.queue[k].series.Some? && end.queue[k].series.value in facts.followed
      ensures IsMade(facts, config, entries, answers, end.queue[k])
      ensures exists i, b :: 0 <= i < |answers| && answers[i].search.Ok? && 0 <= b < |answers[i].search.value|
                && end.queue[k].slug == answers[i].search.value[b].slug
                && end.queue[k].downloadId == answers[i].search.value[b].downloadId
                && end.queue[k].size == answers[i].search.value[b].size
      ensures exists e :: e in calendar && e.series == end.queue[k].series && e.number == end.queue[k].number
                && today - LOOKBACK_DAYS <= e.released <= today + LOOKAHEAD_DAYS
    {
      assert IsMade(facts, config, entries, answers, end.queue[k]);
      var i :| 0 <= i < |entries| && MadeFor(facts, config, entries[i], answers[i], end.queue[k]);
      ExpectedAreInWindow(calendar, facts.followed, today, entries[i]);
      var b := BestIsLastGreatest(facts.agree, entries[i].number, answers[i].search.value);
    }
  }

  /** With the owned numbers read as they are by `OwnedNumbers`: no row is added for an issue
      whose number agrees with that of a live book of its series. */
  lemma NoOwnedIssueIsQueued(
    books: seq<Book>, metadata: seq<Metadata>, facts: Facts, config: Config, calendar: seq<Entry>, today: int,
    answers: seq<Answer>, before: seq<Row>, k: nat, have: IssueNumber
  )
    requires forall series, number :: series in facts.owned && number in facts.owned[series] <==>
      Owns(books, metadata, facts.followed, series, number)
    requires facts.queued == Keys(before)
    requires |answers| == |Expected(calendar, facts.followed, today)|
    requires
      var end := Visits(facts, config, Expected(calendar, facts.followed, today), answers, Start(before));
      |before| <= k < |end.queue|
    ensures
      var row := Visits(facts, config, Expected(calendar, facts.followed, today), answers, Start(before)).queue[k];
      row.series.Some? && row.number.Some? && Owns(books, metadata, facts.followed, row.series.value, have) ==>
        !facts.agree(have, row.number.value)
  {
    SweepAddsOnlyWhatIsMissing(facts, config, calendar, today, answers, before);
  }

  /** With the owned numbers and the queue read as they are, an entry is wanted exactly when its series
      is known, no live book of that series has a number that agrees with its own, and no row on the
      queue is for that series and number. */
  lemma WantedIff(
    books: seq<Book>, metadata: seq<Metadata>, facts: Facts, before: seq<Row>, e: Entry
  )
    requires forall series, number :: series in facts.owned && number in facts.owned[series] <==>
      Owns(books, metadata, facts.followed, series, number)
    requires facts.queued == Keys(before)
    ensures IsWanted(facts, e) <==>
      && e.series.Some? && e.series.value in facts.names
      && (e.number.Some? ==>
           forall have :: Owns(books, metadata, facts.followed, e.series.value, have) ==>
             !facts.agree(have, e.number.value))
      && (forall k :: 0 <= k < |before| && before[k].series == e.series ==>
           before[k].number.UnwrapOr("") != e.number.UnwrapOr(""))
  {
    if e.series.Some? {
      if Key(e) in facts.queued {
        var row :| row in before && row.series.Some? && (row.series.value, row.number.UnwrapOr("")) == Key(e);
      }
    }
  }

  /** Nothing on offer is passed over: an entry reached below the cap that is wanted and for
      which some source offered a file has its best offer on the queue in the end. */
  lemma {:induction false} EveryOfferIsQueued(
    facts: Facts, config: Config, entries: seq<Entry>, answers: seq<Answer>, before: seq<Row>, i: nat
  )
    requires |answers| == |entries| && i < |entries|
    requires Visits(facts, config, entries, answers, Start(before)).ok
    requires Visits(facts, config, entries[..i], answers[..i], Start(before)).totals.wanted < config.maxPerRun
    requires IsWanted(facts, entries[i]) && answers[i].search.Ok? && answers[i].search.value != []
    ensures
      var end := Visits(facts, config, entries, answers, Start(before));
      var best := BestCandidate(facts.agree, entries[i].number, answers[i].search.value);
      best.Some? && HasRow(end.queue, best.value.slug, best.value.downloadId)
    decreases |entries|
  {
    var n := |entries| - 1;
    var k := BestIsLastGreatest(facts.agree, entries[i].number, answers[i].search.value);
    var best := answers[i].search.value[k];
    var s := Visits(facts, config, entries[..n], answers[..n], Start(before));
    if i < n {
      assert entries[..n][..i] == entries[..i] && answers[..n][..i] == answers[..i];
      EveryOfferIsQueued(facts, config, entries[..n], answers[..n], before, i);
      RowsStay(facts, config, entries[n], answers[n], s, best.slug, best.downloadId);
    } else {
      InsertedHasRow(s.queue, Queued(config, entries[n], best));
    }
  }

  lemma RowsStay(
    facts: Facts, config: Config, e: Entry, answer: Answer, s: State, slug: string, downloadId: string
  )
    requires HasRow(s.queue, slug, downloadId)
    ensures HasRow(Visit(facts, config, e, answer, s).queue, slug, downloadId)
  {
    var r :| 0 <= r < |s.queue| && s.queue[r].slug == slug && s.queue[r].downloadId == downloadId;
    assert Visit(facts, config, e, answer, s).queue[r] == s.queue[r];
  }

  lemma InsertedHasRow(queue: seq<Row>, row: Row)
    ensures HasRow(InsertOrIgnore(queue, row), row.slug, row.downloadId)
  {
    if !HasRow(queue, row.slug, row.downloadId) {
      assert (queue + [row])[|queue|] == row;
    }
  }

  // --------------------------------------------------- repeats within one pass

  /** The issues of the wanted entries, in order. */
  function WantedKeys(facts: Facts, entries: seq<Entry>): seq<(SeriesId, string)> {
    if entries == [] then []
    else
      var (before, e) := (entries[..|entries| - 1], entries[|entries| - 1]);
      WantedKeys(facts, before) + if IsWanted(facts, e) then [Key(e)] else []
  }

  /** Those the cap lets the pass get to. */
  function KeysReached(facts: Facts, config: Config, entries: seq<Entry>): seq<(SeriesId, string)> {
    var keys := WantedKeys(facts, entries);
    if config.maxPerRun < |keys| then keys[..config.maxPerRun] else keys
  }

  ghost predicate Distinct<T>(s: seq<T>) {
    forall j, k :: 0 <= j < k < |s| ==> s[j] != s[k]
  }

  function RowKey(row: Row): Option<(SeriesId, string)> {
    if row.series.Some? then Some((row.series.value, row.number.UnwrapOr(""))) else None
  }

  /** No two rows from `n` on are for the same issue. */
  ghost predicate NewKeysDiffer(queue: seq<Row>, n: nat) {
    forall j, k :: n <= j < k < |queue| ==> RowKey(queue[j]) != RowKey(queue[k])
  }

  ghost predicate IsAmong(key: Option<(SeriesId, string)>, keys: seq<(SeriesId, string)>, n: nat)
    requires n <= |keys|
  {
    exists m :: 0 <= m < n && key == Some(keys[m])
  }

  /** How the rows added so far relate to the issues asked about so far. */
  ghost predicate Follows(facts: Facts, config: Config, entries: seq<Entry>, before: seq<Row>, s: State) {
    var keys := WantedKeys(facts, entries);
    && s.totals.wanted <= |keys| && s.totals.wanted <= config.maxPerRun
    && (s.ok && s.totals.wanted < config.maxPerRun ==> s.totals.wanted == |keys|)
    && before <= s.queue
    && (forall k :: |before| <= k < |s.queue| ==> IsAmong(RowKey(s.queue[k]), keys, s.totals.wanted))
  }

  lemma {:induction false} PassFollows(
    facts: Facts, config: Config, entries: seq<Entry>, answers: seq<Answer>, before: seq<Row>
  )
    requires |answers| == |entries|
    ensures
      var end := Visits(facts, config, entries, answers, Start(before));
      && Follows(facts, config, entries, before, end)
      && (Distinct(KeysReached(facts, config, entries)) ==> NewKeysDiffer(end.queue, |before|))
  {
    if entries != [] {
      var n := |entries| - 1;
      KeysGrow(facts, config, entries);
      PassFollows(facts, config, entries[..n], answers[..n], before);
      VisitFollows(facts, config, entries, answers[n], before,
                   Visits(facts, config, entries[..n], answers[..n], Start(before)));
    }
  }

  lemma KeysGrow(facts: Facts, config: Config, entries: seq<Entry>)
    requires entries != []
    ensures
      var (early, all) := (KeysReached(facts, config, entries[..|entries| - 1]), KeysReached(facts, config, entries));
      early <= all && (Distinct(all) ==> Distinct(early))
  {
  }

  lemma VisitFollows(
    facts: Facts, config: Config, entries: seq<Entry>, answer: Answer, before: seq<Row>, s: State
  )
    requires entries != [] && Follows(facts, config, entries[..|entries| - 1], before, s)
    ensures
      var end := Visit(facts, config, entries[|entries| - 1], answer, s);
      && Follows(facts, config, entries, before, end)
      && (Distinct(KeysReached(facts, config, entries)) && NewKeysDiffer(s.queue, |before|) ==>
           NewKeysDiffer(end.queue, |before|))
  {
    var n := |entries| - 1;
    var end := Visit(facts, config, entries[n], answer, s);
    var (keys, all) := (WantedKeys(facts, entries[..n]), WantedKeys(facts, entries));
    assert keys <= all;
    forall k | |before| <= k < |end.queue| ensures IsAmong(RowKey(end.queue[k]), all, end.totals.wanted) {
      if k < |s.queue| {
        assert IsAmong(RowKey(s.queue[k]), keys, s.totals.wanted);
        var m :| 0 <= m < s.totals.wanted && RowKey(s.queue[k]) == Some(keys[m]);
        assert RowKey(end.queue[k]) == Some(all[m]);
      } else {
        assert RowKey(end.queue[k]) == Some(all[s.totals.wanted]);
      }
    }
    forall j | Distinct(KeysReached(facts, config, entries)) && |before| <= j < |s.queue| < |end.queue|
      ensures RowKey(end.queue[j]) != RowKey(end.queue[|s.queue|])
    {
      assert IsAmong(RowKey(s.queue[j]), keys, s.totals.wanted);
      var m :| 0 <= m < s.totals.wanted && RowKey(s.queue[j]) == Some(keys[m]);
      var reached := KeysReached(facts, config, entries);
      assert reached[m] != reached[s.totals.wanted];
    }
  }

  /** A pass that is not cut short by a failed insert counts as wanted exactly the missing issues
      of followed series, up to the cap, and what it adds is for those. */
  lemma WantedAreTheMissingIssues(
    facts: Facts, config: Config, entries: seq<Entry>, answers: seq<Answer>, before: seq<Row>
  )
    requires |answers| == |entries|
    ensures
      var end := Visits(facts, config, entries, answers, Start(before));
      var keys := KeysReached(facts, config, entries);
      && (end.ok ==> end.totals.wanted == |keys|)
      && forall k :: |before| <= k < |end.queue| ==> IsAmong(RowKey(end.queue[k]), keys, |keys|)
  {
    PassFollows(facts, config, entries, answers, before);
    var end := Visits(facts, config, entries, answers, Start(before));
    var keys := WantedKeys(facts, entries);
    forall k | |before| <= k < |end.queue|
      ensures IsAmong(RowKey(end.queue[k]), KeysReached(facts, config, entries), |KeysReached(facts, config, entries)|)
    {
      assert IsAmong(RowKey(end.queue[k]), keys, end.totals.wanted);
      var m :| 0 <= m < end.totals.wanted && RowKey(end.queue[k]) == Some(keys[m]);
      assert KeysReached(facts, config, entries)[m] == keys[m];
    }
  }

  /** One offer, whose handle is of this length. */
  function OfferOf(length: nat): Answer {
    Answer(Ok([Candidate("", seq(length, _ => 'x'), [], None, None)]), true)
  }

  /** When a new file is on offer for every entry, every issue the cap allows gets a row. */
  lemma {:induction false} NewFilesForAll(
    facts: Facts, config: Config, entries: seq<Entry>, answers: seq<Answer>, before: seq<Row>, longest: nat
  )
    requires |answers| == |entries| && forall i: nat :: i < |entries| ==> answers[i] == OfferOf(longest + i)
    requires forall k :: 0 <= k < |before| ==> |before[k].downloadId| < longest
    ensures
      var end := Visits(facts, config, entries, answers, Start(before));
      var keys := KeysReached(facts, config, entries);
      && end.ok && end.totals.wanted == |keys|
      && before <= end.queue && |end.queue| == |before| + |keys|
      && (forall k :: 0 <= k < |end.queue| ==> |end.queue[k].downloadId| < longest + |entries|)
      && (forall m :: 0 <= m < |keys| ==> RowKey(end.queue[|before| + m]) == Some(keys[m]))
  {
    if entries != [] {
      var n := |entries| - 1;
      NewFilesForAll(facts, config, entries[..n], answers[..n], before, longest);
      var s := Visits(facts, config, entries[..n], answers[..n], Start(before));
      if s.totals.wanted < config.maxPerRun && IsWanted(facts, entries[n]) {
        assert answers[n] == OfferOf(longest + n);
        var k := BestIsLastGreatest(facts.agree, entries[n].number, answers[n].search.value);
        assert !HasRow(s.queue, "", answers[n].search.value[k].downloadId);
      }
    }
  }

  function LongestHandle(queue: seq<Row>): (r: nat)
    ensures forall k :: 0 <= k < |queue| ==> |queue[k].downloadId| < r
  {
    if queue == [] then 0
    else
      var (before, last) := (LongestHandle(queue[..|queue| - 1]), |queue[|queue| - 1].downloadId| + 1);
      if before < last then last else before
  }

  /**
   One pass may queue two files for one issue, since it does not look at what it has queued
   itself. Whatever the sources answer, it does not, exactly when the wanted entries it gets to
   are for different issues.
  */
  lemma OneFileForEachIssueIff(facts: Facts, config: Config, entries: seq<Entry>, before: seq<Row>)
    ensures
      (forall answers: seq<Answer> :: |answers| == |entries| ==>
         NewKeysDiffer(Visits(facts, config, entries, answers, Start(before)).queue, |before|))
      <==> Distinct(KeysReached(facts, config, entries))
  {
    if Distinct(KeysReached(facts, config, entries)) {
      forall answers: seq<Answer> | |answers| == |entries|
        ensures NewKeysDiffer(Visits(facts, config, entries, answers, Start(before)).queue, |before|)
      {
        PassFollows(facts, config, entries, answers, before);
      }
    } else {
      var longest := LongestHandle(before);
      var answers := seq(|entries|, i requires 0 <= i => OfferOf(longest + i));
      assert |answers| == |entries|;
      NewFilesForAll(facts, config, entries, answers, before, longest);
      var keys := KeysReached(facts, config, entries);
      var j, k :| 0 <= j < k < |keys| && keys[j] == keys[k];
      var end := Visits(facts, config, entries, answers, Start(before));
      assert RowKey(end.queue[|before| + j]) == RowKey(end.queue[|before| + k]);
      assert !NewKeysDiffer(end.queue, |before|);
    }
  }

  /** Two calendar entries for one issue, as two providers list it, and two rows for it. */
  lemma OneIssueMayBeQueuedTwice(facts: Facts)
    requires facts.names == {"s"} && facts.owned == map[] && facts.queued == {}
    ensures exists entries, answers: seq<Answer> ::
      && |answers| == |entries|
      && !NewKeysDiffer(Visits(facts, Config(10, false), entries, answers, Start([])).queue, 0)
  {
    var e := Entry(Some("s"), Some("1"), 0);
    var entries := [e, e];
    KeysOfTwins(facts, e);
    OneFileForEachIssueIff(facts, Config(10, false), entries, []);
  }

  lemma KeysOfTwins(facts: Facts, e: Entry)
    requires IsWanted(facts, e)
    ensures !Distinct(KeysReached(facts, Config(10, false), [e, e]))
  {
    assert [e, e][..1] == [e] && [e][..0] == [];
    assert WantedKeys(facts, [e]) == [] + [Key(e)];
    assert WantedKeys(facts, [e, e]) == [Key(e), Key(e)];
    assert KeysReached(facts, Config(10, false), [e, e])[0] == KeysReached(facts, Config(10, false), [e, e])[1];
  }
}
