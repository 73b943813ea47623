/**
 * The project cache (`CodecksData`): the snapshot of the project the remote
 * service returned, the time of the last refresh, and the file that mirrors
 * both on disk.
 *
 * The remote service, the clock and the file system's successes and failures
 * are parameters of the methods: a fetch is given the response it gets (`None`
 * for the `None` of `make_request`), a refresh the current time, a save whether
 * the write went through. The methods return the queries they send.
 */
module CodecksData {
  import opened Wrappers
  import opened JsonValues
  import opened Dates
  import opened CodecksApi
  import opened SnapshotQueries
  import opened DueDates

  // ---------------------------------------------------------------------------
  // Where the mirror lives

  const DataDir := "data"
  const MirrorName := "codecks.json"

  /** `os.path.join(a, b)` on POSIX: an absolute `b` replaces `a`. */
  function JoinPath(a: string, b: string): (r: string)
    ensures b != [] && b[0] == '/' ==> r == b
    ensures (b == [] || b[0] != '/') && a != [] && a[|a| - 1] != '/' ==> r == a + "/" + b
  {
    if b != [] && b[0] == '/' then b
    else if a == [] || a[|a| - 1] == '/' then a + b
    else a + "/" + b
  }

  /** `data_filepath`: `data/<subdomain>/codecks.json`. */
  function MirrorPath(subdomain: string): (r: string)
    ensures |r| >= |"/" + MirrorName| && r[|r| - |"/" + MirrorName|..] == "/" + MirrorName
    ensures subdomain == [] || subdomain[0] != '/' ==> |r| >= 5 && r[..5] == "data/"
  {
    JoinPath(JoinPath(DataDir, subdomain), MirrorName)
  }

  /** A subdomain that is one plain path component. */
  predicate PlainName(s: string) {
    s != [] && forall i :: 0 <= i < |s| ==> s[i] != '/'
  }

  lemma MirrorPathOfPlainName(subdomain: string)
    requires PlainName(subdomain)
    ensures MirrorPath(subdomain) == "data/" + subdomain + "/codecks.json"
  {
    var dir := JoinPath(DataDir, subdomain);
    assert subdomain[0] != '/';
    assert dir == "data/" + subdomain;
    assert dir[|dir| - 1] == subdomain[|subdomain| - 1];
  }

  /** Caches of two different plain subdomains never share a mirror file. */
  lemma MirrorPathsDistinct(a: string, b: string)
    requires PlainName(a) && PlainName(b) && a != b
    ensures MirrorPath(a) != MirrorPath(b)
  {
    MirrorPathOfPlainName(a);
    MirrorPathOfPlainName(b);
    var pa, pb := MirrorPath(a), MirrorPath(b);
    if |a| == |b| {
      assert pa[5..5 + |a|] == a;
      assert pb[5..5 + |a|] == b;
    } else {
      assert |pa| != |pb|;
    }
  }

  /**
   * The subdomain is not checked to be one component: with a trailing slash it
   * names the same mirror as without, an absolute one leaves `data/`, and `..`
   * climbs out of it.
   */
  lemma MirrorPathUnchecked()
    ensures MirrorPath("acme/") == MirrorPath("acme") == "data/acme/codecks.json"
    ensures MirrorPath("/tmp") == "/tmp/codecks.json"
    ensures MirrorPath("..") == "data/../codecks.json"
  {
    TrailingSlashMirror();
    AbsoluteMirror();
    ParentMirror();
  }

  lemma TrailingSlashMirror()
    ensures MirrorPath("acme/") == MirrorPath("acme") == "data/acme/codecks.json"
  {
    MirrorPathOfPlainName("acme");
    assert JoinPath(DataDir, "acme/") == "data/acme/";
    assert JoinPath("data/acme/", MirrorName) == "data/acme/codecks.json";
  }

  lemma AbsoluteMirror()
    ensures MirrorPath("/tmp") == "/tmp/codecks.json"
  {
    assert JoinPath(DataDir, "/tmp") == "/tmp";
    assert JoinPath("/tmp", MirrorName) == "/tmp/codecks.json";
  }

  lemma ParentMirror()
    ensures MirrorPath("..") == "data/../codecks.json"
  {
    assert PlainName("..");
    MirrorPathOfPlainName("..");
  }

  // ---------------------------------------------------------------------------
  // The mirror file and what reading and writing it do

  /** What `data/<subdomain>/codecks.json` holds: nothing, something `json.load` rejects, or an object. */
  datatype Mirror = Missing | Unreadable | Stored(doc: Dict)

  /**
   * How a save ends: the file was written; opening or writing it failed (caught
   * and logged); or the directory was missing and `os.makedirs` raised, which
   * nothing in the cache catches.
   */
  datatype WriteResult = Written | WriteFailed | DirFailed

  /** `self.data["last_update"] = last_updated` with the text form of the time. */
  function Stamped(d: Dict, t: Instant): (r: Dict)
    requires ValidInstant(t) && FourDigitYear(t)
    ensures Keys(r) == if "last_update" in Keys(d) then Keys(d) else Keys(d) + ["last_update"]
  {
    Set(d, "last_update", Str(FormatIso(t)))
  }

  /** Stamping adds or replaces `last_update` and leaves every other entry alone. */
  lemma StampedEntries(d: Dict, t: Instant, k: string)
    requires ValidInstant(t) && FourDigitYear(t)
    ensures Get(Stamped(d, t), k) == if k == "last_update" then Some(Str(FormatIso(t))) else Get(d, k)
    ensures DistinctKeys(d) ==> DistinctKeys(Stamped(d, t))
  {
    GetSet(d, "last_update", Str(FormatIso(t)), k);
    if DistinctKeys(d) {
      SetDistinct(d, "last_update", Str(FormatIso(t)));
    }
  }

  /** The time `load_project` reads: `strptime(data.get("last_update"), ...)`; `None` where it raises. */
  function LoadedStamp(doc: Dict): (r: Option<Instant>)
    ensures r.Some? ==> ValidInstant(r.value)
    ensures r.Some? <==> Get(doc, "last_update").Some? && Get(doc, "last_update").value.Str?
                         && ParseIso(Get(doc, "last_update").value.s).Some?
  {
    match Get(doc, "last_update")
    case Some(Str(s)) => ParseIso(s)
    case _ => None
  }

  /**
   * The state after the reading half of `load_project` from data `d` and stamp
   * `s`: a readable file replaces the data, and its time, if it parses,
   * replaces the stamp. Every failure is caught and logged.
   */
  function AfterRead(m: Mirror, d: Dict, s: Stamp): (Dict, Stamp)
  {
    match m
    case Stored(doc) =>
      (doc, match LoadedStamp(doc) case Some(t) => Clock(t) case None => s)
    case _ => (d, s)
  }

  /**
   * The state after `get_project_data` with `response` at time `now`: the stamp
   * is advanced whether or not the fetch succeeds, the data replaced only when
   * the response is a non-empty object, and stamped by the save unless the
   * save raised before stamping.
   */
  function FetchState(d: Dict, response: Option<Dict>, now: Instant, write: WriteResult): (Dict, Stamp)
    requires ValidInstant(now) && FourDigitYear(now)
  {
    (if !IsPayload(response) then d
     else if write.DirFailed? then response.value
     else Stamped(response.value, now),
     Text(now))
  }

  /** The mirror after `get_project_data`: rewritten when something was fetched and the write succeeded. */
  function MirrorAfterFetch(m: Mirror, response: Option<Dict>, now: Instant, write: WriteResult): Mirror
    requires ValidInstant(now) && FourDigitYear(now)
  {
    if IsPayload(response) && write.Written? then Stored(Stamped(response.value, now)) else m
  }

  /**
   * Persistence round trip: what a successful fetch writes, a later load reads
   * back in full, and the stamp comes back as the same time (as a `datetime`).
   */
  lemma LoadAfterFetch(m: Mirror, d: Dict, s: Stamp, response: Option<Dict>, now: Instant, d': Dict, s': Stamp)
    requires ValidInstant(now) && FourDigitYear(now) && IsPayload(response)
    ensures AfterRead(MirrorAfterFetch(m, response, now, Written), d', s')
            == (FetchState(d, response, now, Written).0, Clock(now))
  {
    var doc := Stamped(response.value, now);
    StampedEntries(response.value, now, "last_update");
    ParseFormatIso(now);
    assert LoadedStamp(doc) == Some(now);
  }

  /** A failed fetch keeps the old data but still moves `last_update` on, however a save would have ended. */
  lemma FailedFetchStillStamps(d: Dict, response: Option<Dict>, now: Instant, write: WriteResult)
    requires ValidInstant(now) && FourDigitYear(now) && !IsPayload(response)
    ensures FetchState(d, response, now, write) == (d, Text(now))
    ensures forall m :: MirrorAfterFetch(m, response, now, write) == m
  {
  }

  /**
   * When `os.makedirs` raises, the fetched project is held without its
   * `last_update` entry and no file is written.
   */
  lemma DirFailureLeavesUnstamped(d: Dict, response: Option<Dict>, now: Instant, m: Mirror)
    requires ValidInstant(now) && FourDigitYear(now) && IsPayload(response)
    ensures FetchState(d, response, now, DirFailed).0 == response.value
    ensures Get(FetchState(d, response, now, DirFailed).0, "last_update") == Get(response.value, "last_update")
    ensures MirrorAfterFetch(m, response, now, DirFailed) == m
  {
  }

  // ---------------------------------------------------------------------------
  // Activity

  /**
   * `[activity["card"] for activity in activity_data]` over a list: every
   * entry must be an object with a `card` key, otherwise it raises.
   */
  function CardRefs(items: seq<Json>): (r: Option<seq<Json>>)
    ensures r.Some? <==> forall i :: 0 <= i < |items| ==>
                           items[i].Obj? && Get(items[i].entries, "card").Some?
    ensures r.Some? ==> |r.value| == |items|
                        && forall i :: 0 <= i < |items| ==>
                             items[i].Obj? && r.value[i] == Get(items[i].entries, "card").value
  {
    if items == [] then Some([])
    else if !items[0].Obj? || Get(items[0].entries, "card").None? then None
    else match CardRefs(items[1..])
      case None => None
      case Some(rest) => Some([Get(items[0].entries, "card").value] + rest)
  }

  /**
   * The card ids `get_history_data` collects from `response.get("activity", [])`.
   * An empty text or object has length 0 and asks for nothing; a non-empty one
   * iterates as text or keys and raises; a number, a boolean and `null` have no
   * length and raise. `None` stands for the exception.
   */
  function ActivityCards(activity: Json): (r: Option<seq<Json>>)
    ensures activity.Arr? ==> r == CardRefs(activity.items)
    ensures !activity.Arr? ==> (r.Some? <==> activity in {Obj([]), Str([])}) && (r.Some? ==> r.value == [])
  {
    match activity
    case Arr(items) => CardRefs(items)
    case Obj(entries) => if entries == [] then Some([]) else None
    case Str(s) => if s == [] then Some([]) else None
    case _ => None
  }

  /** How a call of `get_history_data` ends. */
  datatype HistoryOutcome =
    | NoAnswer                      // the history fetch returned nothing
    | NoChanges                     // no activity since the last update
    | ChangedCards(ids: seq<Json>)  // the cards of the activities were fetched
    | Malformed                     // collecting the card ids raised

  function HistoryOutcomeOf(history: Option<Dict>): (o: HistoryOutcome)
    ensures o == NoAnswer <==> !IsPayload(history)
    ensures o.ChangedCards? ==> o.ids != []
  {
    if !IsPayload(history) then NoAnswer
    else match ActivityCards(GetOr(history.value, "activity", Arr([])))
      case None => Malformed
      case Some(ids) => if ids == [] then NoChanges else ChangedCards(ids)
  }

  /**
   * Which cards the history answer asks for: one id per activity, in order,
   * exactly when every activity names its card.
   */
  lemma {:induction false} HistoryAsksForActivityCards(history: Dict, items: seq<Json>)
    requires history != [] && Get(history, "activity") == Some(Arr(items)) && items != []
    ensures HistoryOutcomeOf(Some(history)).ChangedCards?
            <==> forall i :: 0 <= i < |items| ==> items[i].Obj? && Get(items[i].entries, "card").Some?
    ensures HistoryOutcomeOf(Some(history)).ChangedCards? ==>
              var ids := HistoryOutcomeOf(Some(history)).ids;
              |ids| == |items| && forall i :: 0 <= i < |items| ==>
                items[i].Obj? && ids[i] == Get(items[i].entries, "card").value
  {
    var r := CardRefs(items);
    if r.Some? {
      assert |r.value| == |items| > 0;
    }
  }

  /** The first history query after start-up asks for everything since the epoch, in `str(datetime)` form. */
  lemma FirstHistorySince()
    ensures Render(Clock(Epoch)) == "1970-01-01 00:00:00"
  {
  }

  // ---------------------------------------------------------------------------
  // The cache

  /** The file at `data_filepath`, shared by every cache of the same subdomain. */
  class MirrorFile {
    var contents: Mirror

    constructor(contents: Mirror)
      ensures this.contents == contents
    {
      this.contents := contents;
    }
  }

  class Cache {
    const api: Api
    /** `data_filepath`. */
    const path: string
    const mirror: MirrorFile
    /** The project snapshot. */
    var data: Dict
    var lastUpdate: Stamp

    /** Dictionaries have distinct keys, and the stamp is a real time. */
    predicate Valid()
      reads this, mirror
    {
      && DistinctKeys(data)
      && ValidStamp(lastUpdate)
      && (mirror.contents.Stored? ==> DistinctKeys(mirror.contents.doc))
    }

    /** `CodecksData()`: empty data, `last_update` at 1970-01-01, the mirror under `data/<subdomain>/`. */
    constructor(api: Api, mirror: MirrorFile)
      requires api.token != "" && api.subdomain != ""
      requires mirror.contents.Stored? ==> DistinctKeys(mirror.contents.doc)
      ensures this.api == api && this.mirror == mirror && path == MirrorPath(api.subdomain)
      ensures data == [] && lastUpdate == Clock(Epoch)
      ensures Valid()
    {
      this.api := api;
      this.mirror := mirror;
      path := MirrorPath(api.subdomain);
      data := [];
      lastUpdate := Clock(Epoch);
    }

    /**
     * `save_project`: creates the directory if it is missing (which may raise),
     * writes the stamp into the data, then tries to write the file. Only ever
     * called once the stamp is in text form. `raised` is the exception of
     * `os.makedirs`, which leaves everything as it was.
     */
    method SaveProject(write: WriteResult) returns (raised: bool)
      requires Valid() && lastUpdate.Text?
      modifies this, mirror
      ensures raised <==> write.DirFailed?
      ensures lastUpdate == old(lastUpdate)
      ensures data == if raised then old(data) else Stamped(old(data), old(lastUpdate).at)
      ensures mirror.contents == if write.Written? then Stored(data) else old(mirror.contents)
      ensures Valid()
    {
      raised := write.DirFailed?;
      if raised {
        return;
      }
      StampedEntries(data, lastUpdate.at, "last_update");
      data := Stamped(data, lastUpdate.at);
      if write.Written? {
        mirror.contents := Stored(data);
      }
    }

    /**
     * `get_project_data`: advance the stamp, fetch, and on success replace and
     * save. `raised` is the exception of the save passing through.
     */
    method GetProjectData(response: Option<Dict>, now: Instant, write: WriteResult)
      returns (sent: Query, raised: bool)
      requires Valid() && ValidInstant(now) && FourDigitYear(now)
      requires response.Some? ==> DistinctKeys(response.value)
      modifies this, mirror
      ensures sent == ProjectQuery
      ensures raised <==> IsPayload(response) && write.DirFailed?
      ensures (data, lastUpdate) == FetchState(old(data), response, now, write)
      ensures mirror.contents == MirrorAfterFetch(old(mirror.contents), response, now, write)
      ensures Valid()
    {
      lastUpdate := Text(now);
      sent := ProjectQuery;
      raised := false;
      if IsPayload(response) {
        data := response.value;
        raised := SaveProject(write);
      }
    }

    /**
     * `get_card_data`: fetch the cards and merge the response into the data at
     * the top level. The save it starts is never awaited, so nothing is written.
     */
    method GetCardData(ids: seq<Json>, response: Option<Dict>) returns (sent: Query)
      requires Valid()
      requires response.Some? ==> DistinctKeys(response.value)
      modifies this
      ensures sent == CardsQuery(ids)
      ensures data == if IsPayload(response) then Update(old(data), response.value) else old(data)
      ensures lastUpdate == old(lastUpdate)
      ensures Valid()
    {
      sent := CardsQuery(ids);
      if IsPayload(response) {
        UpdateDistinct(data, response.value);
        data := Update(data, response.value);
      }
    }

    /**
     * `get_history_data`: ask for the activities since `last_update` (as the
     * stamp prints), advance the stamp on any answer, then fetch the cards the
     * activities name. If collecting the ids raises, the stamp stays advanced.
     */
    method GetHistoryData(history: Option<Dict>, now: Instant, cards: Option<Dict>)
      returns (sent: seq<Query>, outcome: HistoryOutcome)
      requires Valid() && ValidInstant(now) && FourDigitYear(now)
      requires cards.Some? ==> DistinctKeys(cards.value)
      modifies this
      ensures outcome == HistoryOutcomeOf(history)
      ensures sent == [HistoryQuery(Render(old(lastUpdate)))]
                      + (if outcome.ChangedCards? then [CardsQuery(outcome.ids)] else [])
      ensures lastUpdate == if IsPayload(history) then Text(now) else old(lastUpdate)
      ensures data == if outcome.ChangedCards? && IsPayload(cards) then Update(old(data), cards.value) else old(data)
      ensures Valid()
    {
      sent := [HistoryQuery(Render(lastUpdate))];
      outcome := HistoryOutcomeOf(history);
      if IsPayload(history) {
        lastUpdate := Text(now);
        if outcome.ChangedCards? {
          var q := GetCardData(outcome.ids, cards);
          sent := sent + [q];
        }
      }
    }

    /**
     * `load_project`: without a mirror, fetch the project first (which may
     * write one); then read the mirror, if there is a readable one, into the
     * data and its time into the stamp. The exception of a save raised during
     * the fetch is outside the `try`, passes through and skips the read; the
     * mirror is then still missing, so the state is what the fetch left.
     */
    method LoadProject(fetched: Option<Dict>, now: Instant, write: WriteResult)
      returns (sent: seq<Query>, raised: bool)
      requires Valid() && ValidInstant(now) && FourDigitYear(now)
      requires fetched.Some? ==> DistinctKeys(fetched.value)
      modifies this, mirror
      ensures sent == if old(mirror.contents).Missing? then [ProjectQuery] else []
      ensures raised <==> old(mirror.contents).Missing? && IsPayload(fetched) && write.DirFailed?
      ensures mirror.contents == if old(mirror.contents).Missing?
                                 then MirrorAfterFetch(Missing, fetched, now, write)
                                 else old(mirror.contents)
      ensures (data, lastUpdate) == AfterRead(mirror.contents,
                                              if old(mirror.contents).Missing? then FetchState(old(data), fetched, now, write).0 else old(data),
                                              if old(mirror.contents).Missing? then Text(now) else old(lastUpdate))
      ensures Valid()
    {
      sent := [];
      raised := false;
      if mirror.contents.Missing? {
        var q;
        q, raised := GetProjectData(fetched, now, write);
        sent := [q];
        if raised {
          return;
        }
      }
      if mirror.contents.Stored? {
        var doc := mirror.contents.doc;
        data := doc;
        match LoadedStamp(doc)
        case Some(t) => lastUpdate := Clock(t);
        case None =>
      }
    }

    /** `get_decks`. */
    method GetDecks() returns (decks: Json)
      ensures decks == Decks(data)
    {
      decks := Decks(data);
    }

    /** `get_card_info`. */
    method GetCardInfo(id: string) returns (card: Json)
      requires CardMapReadable(data)
      ensures card == CardInfo(data, id)
    {
      card := CardInfo(data, id);
    }

    /** `get_cards`. */
    method GetCards(filter: string) returns (cards: seq<Json>)
      requires CardsReadable(data)
      ensures cards == Cards(data, filter)
    {
      cards := Cards(data, filter);
    }

    /** `get_due_cards`, `today` being the date of the current time. */
    method GetDueCards(daysAhead: int, today: Date) returns (due: seq<Due>)
      requires DueReadable(data)
      requires HorizonDefined(data, daysAhead, today)
      ensures due == DueCards(data, daysAhead, today)
    {
      due := DueCards(data, daysAhead, today);
    }
  }

  // ---------------------------------------------------------------------------
  // Start-up and restart

  /**
   * First start with no mirror and a successful fetch and write; then a restart
   * that loads the mirror without asking the remote service: both caches hold
   * the fetched project, stamped with the time of the fetch.
   */
  method RestartRestoresSnapshot(api: Api, response: Dict, now: Instant, later: Instant)
    returns (first: Cache, second: Cache)
    requires api.token != "" && api.subdomain != ""
    requires response != [] && DistinctKeys(response)
    requires ValidInstant(now) && FourDigitYear(now) && ValidInstant(later) && FourDigitYear(later)
    ensures first.mirror == second.mirror
    ensures first.data == second.data == Stamped(response, now)
    ensures first.lastUpdate == second.lastUpdate == Clock(now)
  {
    var file := new MirrorFile(Missing);
    first := new Cache(api, file);
    var stored := Stamped(response, now);
    LoadAfterFetch(Missing, [], Clock(Epoch), Some(response), now, stored, Text(now));
    LoadAfterFetch(Missing, [], Clock(Epoch), Some(response), now, [], Clock(Epoch));
    var sentFirst, raisedFirst := first.LoadProject(Some(response), now, Written);
    assert file.contents == Stored(stored);
    assert first.data == stored && first.lastUpdate == Clock(now);
    second := new Cache(api, file);
    var sentSecond, raisedSecond := second.LoadProject(None, later, Written);
    assert second.data == stored && second.lastUpdate == Clock(now);
  }
}
