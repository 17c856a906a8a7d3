/**
 The migration that gives each book and series one link for each metadata provider, filled
 from the columns that held a single match before: the generic pair first, then the two ad-hoc
 id columns for the providers it has not covered.
*/
module MetadataPool {
  import opened Wrappers
  import opened Ascii

  /** A row of `media_metadata`, as far as it is read. */
  datatype MediaRow = MediaRow(
    media: Option<string>, source: Option<string>, externalId: Option<string>,
    comicvine: Option<string>, metron: Option<string>
  )

  /** A row of `series_metadata`. */
  datatype SeriesRow = SeriesRow(series: string, source: Option<string>, externalId: Option<string>)

  datatype LinkState = Candidate | Linked | Rejected

  datatype ChosenBy = Auto | User | Backfill

  datatype Link = Link(
    media: Option<string>, series: Option<string>, provider: string, externalId: Option<string>,
    state: LinkState, chosenBy: Option<ChosenBy>
  )

  /** The tables' keys: a book has one row, and so has a series. */
  ghost predicate KeysHold(media: seq<MediaRow>, series: seq<SeriesRow>) {
    && (forall i, j :: 0 <= i < j < |media| && media[i].media.Some? ==> media[i].media != media[j].media)
    && (forall i, j :: 0 <= i < j < |series| ==> series[i].series != series[j].series)
  }

  // ------------------------------------------------------------------- the insert

  /** The two partial unique indexes. */
  predicate Conflicts(a: Link, b: Link) {
    && a.provider == b.provider
    && ((a.media.Some? && a.media == b.media) || (a.series.Some? && a.series == b.series))
  }

  predicate HasConflict(links: seq<Link>, link: Link) {
    exists k :: 0 <= k < |links| && Conflicts(links[k], link)
  }

  function InsertOrIgnore(links: seq<Link>, link: Link): seq<Link> {
    if HasConflict(links, link) then links else links + [link]
  }

  function InsertAll(links: seq<Link>, offers: seq<Link>): seq<Link> {
    if offers == [] then links
    else InsertOrIgnore(InsertAll(links, offers[..|offers| - 1]), offers[|offers| - 1])
  }

  // ------------------------------------------------------------------ the four selects

  function MediaLink(media: string, provider: string, externalId: string): Link {
    Link(Some(media), None, provider, Some(externalId), Linked, Some(Backfill))
  }

  function SeriesLink(series: string, provider: string, externalId: string): Link {
    Link(None, Some(series), provider, Some(externalId), Linked, Some(Backfill))
  }

  datatype Statement = FromSource | FromComicvine | FromMetron

  /** What one of the statements over `media_metadata` makes of a row. */
  function MediaOffer(st: Statement, r: MediaRow): Option<Link> {
    if r.media.None? then None
    else
      match st
      case FromSource =>
        if r.source.Some? && r.externalId.Some?
        then Some(MediaLink(r.media.value, Lower(r.source.value), r.externalId.value)) else None
      case FromComicvine =>
        if r.comicvine.Some? then Some(MediaLink(r.media.value, "comicvine", r.comicvine.value)) else None
      case FromMetron =>
        if r.metron.Some? then Some(MediaLink(r.media.value, "metron", r.metron.value)) else None
  }

  function SeriesOffer(r: SeriesRow): Option<Link> {
    if r.source.Some? && r.externalId.Some?
    then Some(SeriesLink(r.series, Lower(r.source.value), r.externalId.value)) else None
  }

  function SelectMedia(st: Statement, rows: seq<MediaRow>): seq<Link> {
    if rows == [] then []
    else
      var (before, offer) := (SelectMedia(st, rows[..|rows| - 1]), MediaOffer(st, rows[|rows| - 1]));
      if offer.None? then before else before + [offer.value]
  }

  function SelectSeries(rows: seq<SeriesRow>): seq<Link> {
    if rows == [] then []
    else
      var (before, offer) := (SelectSeries(rows[..|rows| - 1]), SeriesOffer(rows[|rows| - 1]));
      if offer.None? then before else before + [offer.value]
  }

  /** The four statements in their order. */
  function Backfilled(links: seq<Link>, media: seq<MediaRow>, series: seq<SeriesRow>): seq<Link> {
    var first := InsertAll(links, SelectMedia(FromSource, media));
    var second := InsertAll(first, SelectSeries(series));
    var third := InsertAll(second, SelectMedia(FromComicvine, media));
    InsertAll(third, SelectMedia(FromMetron, media))
  }

  class Database {
    const media: seq<MediaRow>
    const series: seq<SeriesRow>
    var links: seq<Link>

    constructor (media: seq<MediaRow>, series: seq<SeriesRow>)
      ensures this.media == media && this.series == series && links == []
    {
      this.media, this.series, this.links := media, series, [];
    }

    /** `INSERT OR IGNORE … SELECT … FROM media_metadata`. */
    method InsertFromMedia(st: Statement)
      modifies this
      ensures links == InsertAll(old(links), SelectMedia(st, media))
    {
      for i := 0 to |media|
        invariant links == InsertAll(old(links), SelectMedia(st, media[..i]))
      {
        assert media[..i + 1][..i] == media[..i];
        var offer := MediaOffer(st, media[i]);
        if offer.Some? {
          InsertedNext(old(links), SelectMedia(st, media[..i]), offer.value);
          links := InsertOrIgnore(links, offer.value);
        }
      }
      assert media[..|media|] == media;
    }

    method InsertFromSeries()
      modifies this
      ensures links == InsertAll(old(links), SelectSeries(series))
    {
      for i := 0 to |series|
        invariant links == InsertAll(old(links), SelectSeries(series[..i]))
      {
        assert series[..i + 1][..i] == series[..i];
        var offer := SeriesOffer(series[i]);
        if offer.Some? {
          InsertedNext(old(links), SelectSeries(series[..i]), offer.value);
          links := InsertOrIgnore(links, offer.value);
        }
      }
      assert series[..|series|] == series;
    }

    /** The backfill part of `up`. */
    method Up()
      modifies this
      ensures links == Backfilled(old(links), media, series)
    {
      InsertFromMedia(FromSource);
      InsertFromSeries();
      InsertFromMedia(FromComicvine);
      InsertFromMedia(FromMetron);
    }
  }

  lemma InsertedNext(links: seq<Link>, offers: seq<Link>, link: Link)
    ensures InsertAll(links, offers + [link]) == InsertOrIgnore(InsertAll(links, offers), link)
  {
    assert (offers + [link])[..|offers|] == offers;
  }

  // ---------------------------------------------------------------- what the result is

  datatype Entity = Media(id: string) | Series(id: string)

  predicate IsFor(link: Link, entity: Entity, provider: string) {
    && link.provider == provider
    && match entity
       case Media(id) => link.media == Some(id)
       case Series(id) => link.series == Some(id)
  }

  /** The link of an entity for a provider. */
  function LinkOf(links: seq<Link>, entity: Entity, provider: string): Option<Link> {
    if links == [] then None
    else
      var earlier := LinkOf(links[..|links| - 1], entity, provider);
      if earlier.Some? then earlier
      else if IsFor(links[|links| - 1], entity, provider) then Some(links[|links| - 1])
      else None
  }

  /** What one book's row has for a provider: the generic pair before the ad-hoc columns. */
  function MergedMedia(r: MediaRow, id: string, provider: string): Option<Link> {
    if r.source.Some? && r.externalId.Some? && Lower(r.source.value) == provider then
      Some(MediaLink(id, provider, r.externalId.value))
    else if provider == "comicvine" && r.comicvine.Some? then Some(MediaLink(id, provider, r.comicvine.value))
    else if provider == "metron" && r.metron.Some? then Some(MediaLink(id, provider, r.metron.value))
    else None
  }

  function MergedSeries(r: SeriesRow, provider: string): Option<Link> {
    if r.source.Some? && r.externalId.Some? && Lower(r.source.value) == provider then
      Some(SeriesLink(r.series, provider, r.externalId.value))
    else None
  }

  function MediaRowOf(rows: seq<MediaRow>, id: string): Option<MediaRow> {
    if rows == [] then None
    else if rows[|rows| - 1].media == Some(id) then Some(rows[|rows| - 1])
    else MediaRowOf(rows[..|rows| - 1], id)
  }

  function SeriesRowOf(rows: seq<SeriesRow>, id: string): Option<SeriesRow> {
    if rows == [] then None
    else if rows[|rows| - 1].series == id then Some(rows[|rows| - 1])
    else SeriesRowOf(rows[..|rows| - 1], id)
  }

  /** The merge, entity by entity. */
  function Merged(media: seq<MediaRow>, series: seq<SeriesRow>, entity: Entity, provider: string): Option<Link> {
    match entity
    case Media(id) =>
      var r := MediaRowOf(media, id);
      if r.Some? then MergedMedia(r.value, id, provider) else None
    case Series(id) =>
      var r := SeriesRowOf(series, id);
      if r.Some? then MergedSeries(r.value, provider) else None
  }

  function OrElse(a: Option<Link>, b: Option<Link>): Option<Link> {
    if a.Some? then a else b
  }

  /** A link of one entity, as the table's check demands. */
  predicate OfOneEntity(link: Link) {
    link.media.Some? != link.series.Some?
  }

  lemma {:induction false} LinkOfNone(links: seq<Link>, entity: Entity, provider: string)
    ensures LinkOf(links, entity, provider).None? <==>
      forall k :: 0 <= k < |links| ==> !IsFor(links[k], entity, provider)
  {
    if links != [] {
      LinkOfNone(links[..|links| - 1], entity, provider);
    }
  }

  lemma ConflictIffLinked(links: seq<Link>, link: Link, entity: Entity)
    requires OfOneEntity(link) && IsFor(link, entity, link.provider)
    ensures HasConflict(links, link) <==> LinkOf(links, entity, link.provider).Some?
  {
    LinkOfNone(links, entity, link.provider);
    if k :| 0 <= k < |links| && Conflicts(links[k], link) {
      assert IsFor(links[k], entity, link.provider);
    }
    if k :| 0 <= k < |links| && IsFor(links[k], entity, link.provider) {
      assert Conflicts(links[k], link);
    }
  }

  /** An insert gives an entity without a link for its provider one, and changes no other. */
  lemma InsertLooksUp(links: seq<Link>, link: Link, entity: Entity, provider: string)
    requires OfOneEntity(link)
    ensures LinkOf(InsertOrIgnore(links, link), entity, provider) ==
      OrElse(LinkOf(links, entity, provider), if IsFor(link, entity, provider) then Some(link) else None)
  {
    assert (links + [link])[..|links|] == links;
    if IsFor(link, entity, provider) {
      ConflictIffLinked(links, link, entity);
    }
  }

  ghost predicate AllOfOneEntity(links: seq<Link>) {
    forall k :: 0 <= k < |links| ==> OfOneEntity(links[k])
  }

  lemma {:induction false} InsertAllLooksUp(links: seq<Link>, offers: seq<Link>, entity: Entity, provider: string)
    requires AllOfOneEntity(offers)
    ensures LinkOf(InsertAll(links, offers), entity, provider)
            == OrElse(LinkOf(links, entity, provider), LinkOf(offers, entity, provider))
  {
    if offers != [] {
      var n := |offers| - 1;
      InsertAllLooksUp(links, offers[..n], entity, provider);
      InsertLooksUp(InsertAll(links, offers[..n]), offers[n], entity, provider);
    }
  }

  lemma LinkOfAppended(links: seq<Link>, link: Link, entity: Entity, provider: string)
    ensures LinkOf(links + [link], entity, provider) ==
      OrElse(LinkOf(links, entity, provider), if IsFor(link, entity, provider) then Some(link) else None)
  {
    assert (links + [link])[..|links|] == links;
  }

  /** What one statement over `media_metadata` offers an entity. */
  function OfferTo(st: Statement, rows: seq<MediaRow>, entity: Entity, provider: string): Option<Link> {
    if entity.Series? then None
    else
      var r := MediaRowOf(rows, entity.id);
      if r.None? then None
      else
        var offer := MediaOffer(st, r.value);
        if offer.Some? && offer.value.provider == provider then offer else None
  }

  lemma {:induction false} MediaLinks(st: Statement, rows: seq<MediaRow>)
    ensures AllOfOneEntity(SelectMedia(st, rows))
  {
    if rows != [] {
      MediaLinks(st, rows[..|rows| - 1]);
    }
  }

  lemma {:induction false} SeriesLinks(rows: seq<SeriesRow>)
    ensures AllOfOneEntity(SelectSeries(rows))
  {
    if rows != [] {
      SeriesLinks(rows[..|rows| - 1]);
    }
  }

  function OfferFor(offer: Option<Link>, entity: Entity, provider: string): Option<Link> {
    if offer.Some? && IsFor(offer.value, entity, provider) then offer else None
  }

  lemma {:induction false} SelectedMedia(st: Statement, rows: seq<MediaRow>, entity: Entity, provider: string)
    requires KeysHold(rows, [])
    ensures LinkOf(SelectMedia(st, rows), entity, provider) == OfferTo(st, rows, entity, provider)
  {
    if rows != [] {
      SelectedMedia(st, rows[..|rows| - 1], entity, provider);
      LastLink(st, rows, entity, provider);
      LastOffer(st, rows, entity, provider);
    }
  }

  lemma LastLink(st: Statement, rows: seq<MediaRow>, entity: Entity, provider: string)
    requires rows != []
    ensures LinkOf(SelectMedia(st, rows), entity, provider) ==
      OrElse(LinkOf(SelectMedia(st, rows[..|rows| - 1]), entity, provider),
             OfferFor(MediaOffer(st, rows[|rows| - 1]), entity, provider))
  {
    var offer := MediaOffer(st, rows[|rows| - 1]);
    if offer.Some? {
      LinkOfAppended(SelectMedia(st, rows[..|rows| - 1]), offer.value, entity, provider);
    }
  }

  lemma LastOffer(st: Statement, rows: seq<MediaRow>, entity: Entity, provider: string)
    requires KeysHold(rows, []) && rows != []
    ensures OfferTo(st, rows, entity, provider) ==
      OrElse(OfferTo(st, rows[..|rows| - 1], entity, provider),
             OfferFor(MediaOffer(st, rows[|rows| - 1]), entity, provider))
  {
    var n := |rows| - 1;
    if entity.Media? && rows[n].media == Some(entity.id) {
      NoEarlierRow(rows, n, entity.id);
    }
  }

  lemma {:induction false} NoEarlierRow(rows: seq<MediaRow>, n: nat, id: string)
    requires n <= |rows| && forall i :: 0 <= i < n ==> rows[i].media != Some(id)
    ensures MediaRowOf(rows[..n], id) == None
  {
    if n > 0 {
      assert rows[..n][..n - 1] == rows[..n - 1];
      NoEarlierRow(rows, n - 1, id);
    }
  }

  /** What the statement over `series_metadata` offers an entity. */
  function SeriesOfferTo(rows: seq<SeriesRow>, entity: Entity, provider: string): Option<Link> {
    if entity.Media? || SeriesRowOf(rows, entity.id).None? then None
    else MergedSeries(SeriesRowOf(rows, entity.id).value, provider)
  }

  lemma {:induction false} SelectedSeries(rows: seq<SeriesRow>, entity: Entity, provider: string)
    requires KeysHold([], rows)
    ensures LinkOf(SelectSeries(rows), entity, provider) == SeriesOfferTo(rows, entity, provider)
  {
    if rows != [] {
      SelectedSeries(rows[..|rows| - 1], entity, provider);
      LastSeriesLink(rows, entity, provider);
      LastSeriesOffer(rows, entity, provider);
    }
  }

  lemma LastSeriesLink(rows: seq<SeriesRow>, entity: Entity, provider: string)
    requires rows != []
    ensures LinkOf(SelectSeries(rows), entity, provider) ==
      OrElse(LinkOf(SelectSeries(rows[..|rows| - 1]), entity, provider),
             OfferFor(SeriesOffer(rows[|rows| - 1]), entity, provider))
  {
    var offer := SeriesOffer(rows[|rows| - 1]);
    if offer.Some? {
      LinkOfAppended(SelectSeries(rows[..|rows| - 1]), offer.value, entity, provider);
    }
  }

  lemma LastSeriesOffer(rows: seq<SeriesRow>, entity: Entity, provider: string)
    requires KeysHold([], rows) && rows != []
    ensures SeriesOfferTo(rows, entity, provider) ==
      OrElse(SeriesOfferTo(rows[..|rows| - 1], entity, provider),
             OfferFor(SeriesOffer(rows[|rows| - 1]), entity, provider))
  {
    var n := |rows| - 1;
    if entity.Series? && rows[n].series == entity.id {
      NoEarlierSeries(rows, n, entity.id);
    }
  }

  lemma {:induction false} NoEarlierSeries(rows: seq<SeriesRow>, n: nat, id: string)
    requires n <= |rows| && forall i :: 0 <= i < n ==> rows[i].series != id
    ensures SeriesRowOf(rows[..n], id) == None
  {
    if n > 0 {
      assert rows[..n][..n - 1] == rows[..n - 1];
      NoEarlierSeries(rows, n - 1, id);
    }
  }

  /** The four statements are the merge, entity by entity; a link that was there stays. */
  lemma BackfillIsTheMerge(
    links: seq<Link>, media: seq<MediaRow>, series: seq<SeriesRow>, entity: Entity, provider: string
  )
    requires KeysHold(media, series)
    ensures LinkOf(Backfilled(links, media, series), entity, provider)
            == OrElse(LinkOf(links, entity, provider), Merged(media, series, entity, provider))
  {
    var first := InsertAll(links, SelectMedia(FromSource, media));
    var second := InsertAll(first, SelectSeries(series));
    var third := InsertAll(second, SelectMedia(FromComicvine, media));
    MediaLinks(FromSource, media);
    SeriesLinks(series);
    MediaLinks(FromComicvine, media);
    MediaLinks(FromMetron, media);
    SelectedMedia(FromSource, media, entity, provider);
    SelectedSeries(series, entity, provider);
    SelectedMedia(FromComicvine, media, entity, provider);
    SelectedMedia(FromMetron, media, entity, provider);
    InsertAllLooksUp(links, SelectMedia(FromSource, media), entity, provider);
    InsertAllLooksUp(first, SelectSeries(series), entity, provider);
    InsertAllLooksUp(second, SelectMedia(FromComicvine, media), entity, provider);
    InsertAllLooksUp(third, SelectMedia(FromMetron, media), entity, provider);
    OffersInOrder(media, series, entity, provider);
  }

  /** The offers of the four statements, first come first served. */
  lemma OffersInOrder(media: seq<MediaRow>, series: seq<SeriesRow>, entity: Entity, provider: string)
    ensures Merged(media, series, entity, provider) ==
      if entity.Media? then
        OrElse(OrElse(OfferTo(FromSource, media, entity, provider), OfferTo(FromComicvine, media, entity, provider)),
               OfferTo(FromMetron, media, entity, provider))
      else SeriesOfferTo(series, entity, provider)
  {
    if entity.Media? {
      MediaRowIsOf(media, entity.id);
    }
  }

  lemma {:induction false} MediaRowIsOf(rows: seq<MediaRow>, id: string)
    ensures MediaRowOf(rows, id).Some? ==> MediaRowOf(rows, id).value.media == Some(id)
  {
    if rows != [] {
      MediaRowIsOf(rows[..|rows| - 1], id);
    }
  }

  lemma {:induction false} RowOfItsBook(rows: seq<MediaRow>, i: nat, id: string)
    requires KeysHold(rows, []) && i < |rows| && rows[i].media == Some(id)
    ensures MediaRowOf(rows, id) == Some(rows[i])
  {
    if i < |rows| - 1 {
      RowOfItsBook(rows[..|rows| - 1], i, id);
    }
  }

  /** A link recovered from the old columns, column by column: applied, by nobody known. */
  ghost predicate Recovered(link: Option<Link>, media: Option<string>, series: Option<string>, provider: string, id: string) {
    && link.Some?
    && link.value.media == media && link.value.series == series
    && link.value.provider == provider && link.value.externalId == Some(id)
    && link.value.state == Linked && link.value.chosenBy == Some(Backfill)
  }

  /** For a book: the generic pair is its link for that provider, whatever the ad-hoc columns hold;
      and each of those columns is its link for a provider that the pair does not cover. A link that
      was there before stays in any case. */
  lemma GenericPairWins(links: seq<Link>, media: seq<MediaRow>, series: seq<SeriesRow>, i: nat, id: string)
    requires KeysHold(media, series) && i < |media| && media[i].media == Some(id)
    ensures
      var (r, after) := (media[i], Backfilled(links, media, series));
      var pair := r.source.Some? && r.externalId.Some?;
      && (pair && LinkOf(links, Media(id), Lower(r.source.value)).None? ==>
           Recovered(LinkOf(after, Media(id), Lower(r.source.value)), Some(id), None,
                     Lower(r.source.value), r.externalId.value))
      && (r.comicvine.Some? && LinkOf(links, Media(id), "comicvine").None?
            && !(pair && Lower(r.source.value) == "comicvine") ==>
           Recovered(LinkOf(after, Media(id), "comicvine"), Some(id), None, "comicvine", r.comicvine.value))
      && (r.metron.Some? && LinkOf(links, Media(id), "metron").None?
            && !(pair && Lower(r.source.value) == "metron") ==>
           Recovered(LinkOf(after, Media(id), "metron"), Some(id), None, "metron", r.metron.value))
      && (r.comicvine.Some? ==> LinkOf(after, Media(id), "comicvine").Some?)
      && (r.metron.Some? ==> LinkOf(after, Media(id), "metron").Some?)
  {
    RowOfItsBook(media, i, id);
    BackfillIsTheMerge(links, media, series, Media(id), "comicvine");
    BackfillIsTheMerge(links, media, series, Media(id), "metron");
    if media[i].source.Some? {
      BackfillIsTheMerge(links, media, series, Media(id), Lower(media[i].source.value));
    }
  }

  lemma {:induction false} RowOfItsSeries(rows: seq<SeriesRow>, i: nat)
    requires KeysHold([], rows) && i < |rows|
    ensures SeriesRowOf(rows, rows[i].series) == Some(rows[i])
  {
    if i < |rows| - 1 {
      RowOfItsSeries(rows[..|rows| - 1], i);
    }
  }

  /** And for a series: its pair is its link for that provider. */
  lemma SeriesPairIsLinked(links: seq<Link>, media: seq<MediaRow>, series: seq<SeriesRow>, i: nat)
    requires KeysHold(media, series) && i < |series| && series[i].source.Some? && series[i].externalId.Some?
    requires LinkOf(links, Series(series[i].series), Lower(series[i].source.value)).None?
    ensures
      var (r, after) := (series[i], Backfilled(links, media, series));
      Recovered(LinkOf(after, Series(r.series), Lower(r.source.value)), None, Some(r.series),
                Lower(r.source.value), r.externalId.value)
  {
    RowOfItsSeries(series, i);
    BackfillIsTheMerge(links, media, series, Series(series[i].series), Lower(series[i].source.value));
  }

  /** No two links of one entity are for the same provider. */
  ghost predicate OneLinkEach(links: seq<Link>) {
    forall j, k :: 0 <= j < k < |links| ==> !Conflicts(links[j], links[k])
  }

  lemma {:induction false} InsertAllKeeps(links: seq<Link>, offers: seq<Link>)
    requires AllOfOneEntity(offers)
    ensures links <= InsertAll(links, offers)
    ensures OneLinkEach(links) ==> OneLinkEach(InsertAll(links, offers))
    ensures AllTaken(InsertAll(links, offers), offers)
  {
    if offers != [] {
      var n := |offers| - 1;
      var before := InsertAll(links, offers[..n]);
      InsertAllKeeps(links, offers[..n]);
      var after := InsertAll(links, offers);
      TakenStays(before, after, offers[..n]);
      if after != before {
        assert Conflicts(after[|before|], offers[n]);
      }
    }
  }

  /** Each of these would be ignored. */
  ghost predicate AllTaken(links: seq<Link>, offers: seq<Link>) {
    forall k :: 0 <= k < |offers| ==> HasConflict(links, offers[k])
  }

  lemma TakenStays(links: seq<Link>, after: seq<Link>, offers: seq<Link>)
    requires links <= after && AllTaken(links, offers)
    ensures AllTaken(after, offers)
  {
    forall k | 0 <= k < |offers| && HasConflict(links, offers[k]) ensures HasConflict(after, offers[k]) {
      var j :| 0 <= j < |links| && Conflicts(links[j], offers[k]);
      assert Conflicts(after[j], offers[k]);
    }
  }

  lemma {:induction false} NothingToInsert(links: seq<Link>, offers: seq<Link>)
    requires AllTaken(links, offers) && AllOfOneEntity(offers)
    ensures InsertAll(links, offers) == links
  {
    if offers != [] {
      NothingToInsert(links, offers[..|offers| - 1]);
    }
  }

  /** The links that were there stay where they were, no entity gets two links for a provider,
      and doing it all again adds nothing. */
  lemma BackfillTwice(links: seq<Link>, media: seq<MediaRow>, series: seq<SeriesRow>)
    requires KeysHold(media, series)
    ensures
      var after := Backfilled(links, media, series);
      && links <= after
      && (OneLinkEach(links) ==> OneLinkEach(after))
      && Backfilled(after, media, series) == after
  {
    var a := SelectMedia(FromSource, media);
    var b := SelectSeries(series);
    var c := SelectMedia(FromComicvine, media);
    var d := SelectMedia(FromMetron, media);
    var first := InsertAll(links, a);
    var second := InsertAll(first, b);
    var third := InsertAll(second, c);
    var after := InsertAll(third, d);
    MediaLinks(FromSource, media);
    SeriesLinks(series);
    MediaLinks(FromComicvine, media);
    MediaLinks(FromMetron, media);
    InsertAllKeeps(links, a);
    InsertAllKeeps(first, b);
    InsertAllKeeps(second, c);
    InsertAllKeeps(third, d);
    TakenStays(first, after, a);
    TakenStays(second, after, b);
    TakenStays(third, after, c);
    NothingToInsert(after, a);
    NothingToInsert(after, b);
    NothingToInsert(after, c);
    NothingToInsert(after, d);
  }
}
