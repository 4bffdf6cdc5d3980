/** Webhook intake: signature check, replay protection, the event table, and its retention cleanup. */
module Webhooks {
  import opened Common

  datatype Status = Received | Acknowledged | Rejected | Enqueued | Processed | Failed

  /** A validated delivery, with the hash of its body. */
  datatype Delivery = Delivery(
    source: string, endpoint: string, eventType: string,
    deliveryId: Option<string>, eventId: Option<string>, body: string, sha256: string)

  /** JSON objects, with the text of their values. */
  type Fields = map<string, string>

  datatype Event = Event(
    id: nat, source: string, endpoint: string, eventType: string,
    deliveryId: Option<string>, eventId: Option<string>, sha256: Option<string>,
    receivedAt: int, status: Status, rawPayload: Option<string>,
    acknowledgedAt: Option<int>, processedAt: Option<int>, error: Option<string>,
    normalized: Option<Fields>, metadata: Option<Fields>)

  /** Window and age in microseconds; the policy's periods in days. */
  datatype Config = Config(
    hasVerifier: bool, verificationEnabled: bool, maxAge: int,
    replayEnabled: bool, window: int, storeRaw: bool,
    retentionDays: nat, archiveDays: nat)
  {
    /** What the settings and the retention policy's constructor insist on. */
    predicate Valid() {
      && maxAge >= SECOND && window >= SECOND && retentionDays <= archiveDays
      && (verificationEnabled && replayEnabled ==> maxAge <= window)
    }

    function Retention(): int {
      retentionDays * 86_400_000_000
    }

    function Archive(): int {
      archiveDays * 86_400_000_000
    }
  }

  // ---- Replay check ----

  datatype KeyKind = DeliveryIdKey | EventIdKey | PayloadKey

  datatype Match = Match(matchedOn: seq<KeyKind>, eventId: nat, status: Status, receivedAt: int, sha256: Option<string>)

  datatype Verdict = Clear | Replay(match_: Match) | FingerprintMismatch(match_: Match)

  /** The delivery's identifiers pick out the event: any identifier it has, or type and body if it has none. */
  predicate SameIdentity(d: Delivery, e: Event) {
    if d.deliveryId.Some? || d.eventId.Some? then
      || (d.deliveryId.Some? && e.deliveryId == d.deliveryId)
      || (d.eventId.Some? && e.eventId == d.eventId)
    else e.eventType == d.eventType && e.sha256 == Some(d.sha256)
  }

  predicate Candidate(d: Delivery, since: int, e: Event) {
    e.source == d.source && e.endpoint == d.endpoint && e.receivedAt >= since && SameIdentity(d, e)
  }

  predicate Newer(a: Event, b: Event) {
    a.receivedAt > b.receivedAt || (a.receivedAt == b.receivedAt && a.id > b.id)
  }

  function Better(best: Option<Event>, d: Delivery, since: int, e: Event): Option<Event> {
    if !Candidate(d, since, e) || (best.Some? && Newer(best.value, e)) then best else Some(e)
  }

  /** The newest candidate, as the query's order and limit pick it. */
  function Newest(rows: seq<Event>, d: Delivery, since: int): Option<Event> {
    if rows == [] then None else Better(Newest(rows[..|rows| - 1], d, since), d, since, Last(rows))
  }

  function PrimaryKind(d: Delivery): KeyKind {
    if d.deliveryId.Some? then DeliveryIdKey else if d.eventId.Some? then EventIdKey else PayloadKey
  }

  function BuildMatch(d: Delivery, e: Event): Match {
    var onIds := (if d.deliveryId.Some? && d.deliveryId == e.deliveryId then [DeliveryIdKey] else [])
                 + (if d.eventId.Some? && d.eventId == e.eventId then [EventIdKey] else []);
    var on := if onIds == [] && e.sha256 == Some(d.sha256) then [PayloadKey] else onIds;
    Match(if on == [] then [PrimaryKind(d)] else on, e.id, e.status, e.receivedAt, e.sha256)
  }

  predicate Mismatched(d: Delivery, m: Match) {
    PayloadKey !in m.matchedOn && m.sha256.Some? && m.sha256.value != d.sha256
  }

  function VerdictOn(d: Delivery, found: Option<Event>): Verdict {
    match found
    case None => Clear
    case Some(e) =>
      var m := BuildMatch(d, e);
      if Mismatched(d, m) then FingerprintMismatch(m) else Replay(m)
  }

  function Protect(rows: seq<Event>, d: Delivery, checkedAt: int, window: int): Verdict {
    VerdictOn(d, Newest(rows, d, checkedAt - window))
  }

  /** The check clears a delivery exactly when no stored event of its source and endpoint matches inside the window. */
  lemma {:induction false} ClearIff(rows: seq<Event>, d: Delivery, checkedAt: int, window: int)
    ensures Protect(rows, d, checkedAt, window) == Clear <==>
      forall i :: 0 <= i < |rows| ==> !Candidate(d, checkedAt - window, rows[i])
  {
    if rows != [] {
      ClearIff(rows[..|rows| - 1], d, checkedAt, window);
      assert forall i :: 0 <= i < |rows| - 1 ==> rows[i] == rows[..|rows| - 1][i];
    }
  }

  /** The event was received since, at the same place, with an identifier the delivery has, or, when that has none, with
      its type and hash. */
  predicate Seen(d: Delivery, since: int, e: Event) {
    && e.source == d.source && e.endpoint == d.endpoint && since <= e.receivedAt
    && ((d.deliveryId.Some? && d.deliveryId == e.deliveryId)
        || (d.eventId.Some? && d.eventId == e.eventId)
        || (d.deliveryId.None? && d.eventId.None? && d.eventType == e.eventType && e.sha256 == Some(d.sha256)))
  }

  /** Seen, and no later than any other. */
  ghost predicate LastSeen(rows: seq<Event>, d: Delivery, since: int, e: Event) {
    && e in rows && Seen(d, since, e)
    && forall o :: o in rows && Seen(d, since, o) ==>
         o.receivedAt < e.receivedAt || (o.receivedAt == e.receivedAt && o.id <= e.id)
  }

  lemma {:induction false} NewestIsLastSeen(rows: seq<Event>, d: Delivery, since: int)
    ensures var found := Newest(rows, d, since);
      if found.Some? then LastSeen(rows, d, since, found.value) else forall e :: e in rows ==> !Seen(d, since, e)
  {
    if rows != [] {
      var init := rows[..|rows| - 1];
      NewestIsLastSeen(init, d, since);
      assert forall e :: e in rows <==> e in init || e == Last(rows);
    }
  }

  /** What the verdict means: clear if nothing was seen in the window; otherwise it names an event last seen, and is a
      mismatch exactly when that was recognised by an identifier and has another hash. */
  lemma VerdictTells(rows: seq<Event>, d: Delivery, checkedAt: int, window: int)
    ensures match Protect(rows, d, checkedAt, window)
      case Clear => forall e :: e in rows ==> !Seen(d, checkedAt - window, e)
      case Replay(m) =>
        exists e :: LastSeen(rows, d, checkedAt - window, e) && Names(m, d, e)
                    && ((d.deliveryId.None? && d.eventId.None?) || e.sha256.None? || e.sha256.value == d.sha256)
      case FingerprintMismatch(m) =>
        exists e :: LastSeen(rows, d, checkedAt - window, e) && Names(m, d, e)
                    && (d.deliveryId.Some? || d.eventId.Some?) && e.sha256.Some? && e.sha256.value != d.sha256
  {
    NewestIsLastSeen(rows, d, checkedAt - window);
    var found := Newest(rows, d, checkedAt - window);
    if found.Some? {
      assert LastSeen(rows, d, checkedAt - window, found.value) && Names(BuildMatch(d, found.value), d, found.value);
    }
  }

  /** The match describes the event, and lists what it was recognised by. */
  predicate Names(m: Match, d: Delivery, e: Event) {
    && m.eventId == e.id && m.status == e.status && m.receivedAt == e.receivedAt && m.sha256 == e.sha256
    && (DeliveryIdKey in m.matchedOn <==> d.deliveryId.Some? && d.deliveryId == e.deliveryId)
    && (EventIdKey in m.matchedOn <==> d.eventId.Some? && d.eventId == e.eventId)
    && (PayloadKey in m.matchedOn <==> d.deliveryId.None? && d.eventId.None?)
  }

  // ---- Intake ----

  /** One request: what arrives, what the validator and the check note down, when it was signed, the clock at each
      reading, and what comes of the enqueueing: notes or an error. */
  datatype Request = Request(
    delivery: Delivery, valid: bool, normalized: Fields, metadata: Fields, genuine: bool, signedAt: int,
    verifiedAt: int, checkedAt: int, receivedAt: int, finishedAt: int, enqueued: Result<Fields, string>)

  datatype Refusal = VerifierRequired | BadSignature | Invalid | ReplayRefused(verdict: Verdict) | EnqueueFailed(error: string)

  /** The verifiers meant here refuse signatures older than the configured age. */
  predicate SignatureAccepted(cfg: Config, r: Request) {
    r.genuine && r.verifiedAt - r.signedAt <= cfg.maxAge
  }

  /** Everything before the replay check. */
  function Admission(cfg: Config, r: Request): Option<Refusal> {
    if cfg.hasVerifier && !SignatureAccepted(cfg, r) then Some(BadSignature)
    else if !cfg.hasVerifier && cfg.verificationEnabled then Some(VerifierRequired)
    else if !r.valid then Some(Invalid)
    else None
  }

  /** An empty object is stored as none. */
  function OrNone(fields: Fields): Option<Fields> {
    if fields == map[] then None else Some(fields)
  }

  function MergedMetadata(existing: Option<Fields>, updates: Option<Fields>): Option<Fields> {
    OrNone((if existing.Some? then existing.value else map[]) + (if updates.Some? then updates.value else map[]))
  }

  /** Merged metadata has every key of both sides, with the update's value where both have one; without keys there is none. */
  lemma MergedMetadataIs(existing: Option<Fields>, updates: Option<Fields>, key: string)
    ensures var merged := MergedMetadata(existing, updates);
      var before, after := existing.Some? && key in existing.value, updates.Some? && key in updates.value;
      && (merged.Some? && key in merged.value <==> before || after)
      && (after ==> merged.value[key] == updates.value[key])
      && (before && !after ==> merged.value[key] == existing.value[key])
      && merged != Some(map[])
  {
  }

  lemma MergingNotes(m: Fields, updates: Option<Fields>)
    ensures MergedMetadata(OrNone(m), updates) == OrNone(m + if updates.Some? then updates.value else map[])
  {
  }

  function BuildEvent(cfg: Config, id: nat, r: Request): Event {
    var d := r.delivery;
    Event(id, d.source, d.endpoint, d.eventType, d.deliveryId, d.eventId, Some(d.sha256), r.receivedAt, Received,
          if cfg.storeRaw then Some(d.body) else None, None, None, None, OrNone(r.normalized), OrNone(r.metadata))
  }

  const ENQUEUE_FAILED: Fields := map["enqueue" := "failed"]

  /** The event as the request leaves it. */
  function Stored(cfg: Config, id: nat, r: Request): Event {
    var acknowledged := BuildEvent(cfg, id, r).(status := Acknowledged, acknowledgedAt := Some(r.receivedAt));
    match r.enqueued
    case Ok(notes) => acknowledged.(status := Enqueued, metadata := OrNone(r.metadata + notes))
    case Err(error) =>
      acknowledged.(status := Failed, processedAt := Some(r.finishedAt), error := Some(error),
                    metadata := OrNone(r.metadata + ENQUEUE_FAILED))
  }

  predicate Persists(cfg: Config, rows: seq<Event>, r: Request) {
    Admission(cfg, r).None? && (cfg.replayEnabled ==> Protect(rows, r.delivery, r.checkedAt, cfg.window) == Clear)
  }

  function Answer(cfg: Config, rows: seq<Event>, id: nat, r: Request): Result<Event, Refusal> {
    match Admission(cfg, r)
    case Some(refusal) => Err(refusal)
    case None =>
      var verdict := Protect(rows, r.delivery, r.checkedAt, cfg.window);
      if cfg.replayEnabled && verdict != Clear then Err(ReplayRefused(verdict))
      else if r.enqueued.Err? then Err(EnqueueFailed(r.enqueued.error))
      else Ok(Stored(cfg, id, r))
  }

  /** What a sender may count on: the first fault is the answer and nothing is stored; otherwise one event is, which says
      whether it was queued. */
  ghost predicate Promised(
    cfg: Config, r: Request, id: nat, before: seq<Event>, after: seq<Event>, answer: Result<Event, Refusal>)
  {
    if cfg.hasVerifier && !(r.genuine && r.verifiedAt - r.signedAt <= cfg.maxAge) then
      answer == Err(BadSignature) && after == before
    else if !cfg.hasVerifier && cfg.verificationEnabled then answer == Err(VerifierRequired) && after == before
    else if !r.valid then answer == Err(Invalid) && after == before
    else if cfg.replayEnabled && exists e :: e in before && Seen(r.delivery, r.checkedAt - cfg.window, e) then
      answer.Err? && answer.error.ReplayRefused? && after == before
    else
      && |after| == |before| + 1 && after[..|before|] == before
      && var e := Last(after);
         && e.id == id && e.receivedAt == r.receivedAt && e.sha256 == Some(r.delivery.sha256)
         && e.normalized == (if r.normalized == map[] then None else Some(r.normalized))
         && e.metadata == MergedMetadata(Some(r.metadata), Some(if r.enqueued.Ok? then r.enqueued.value else ENQUEUE_FAILED))
         && e.rawPayload == (if cfg.storeRaw then Some(r.delivery.body) else None)
         && match r.enqueued
            case Ok(_) => answer == Ok(e) && e.status == Enqueued && e.acknowledgedAt == Some(r.receivedAt)
            case Err(error) => answer == Err(EnqueueFailed(error)) && e.status == Failed && e.error == Some(error)
  }

  lemma PromiseKept(cfg: Config, rows: seq<Event>, id: nat, r: Request)
    ensures Promised(cfg, r, id, rows, rows + if Persists(cfg, rows, r) then [Stored(cfg, id, r)] else [], Answer(cfg, rows, id, r))
  {
    VerdictTells(rows, r.delivery, r.checkedAt, cfg.window);
    assert rows + [] == rows;
  }

  // ---- Retention ----

  predicate Final(status: Status) {
    status == Processed || status == Failed || status == Rejected
  }

  predicate Expired(cfg: Config, at: int, e: Event) {
    cfg.retentionDays > 0 && e.receivedAt < at - cfg.Retention() && e.rawPayload.Some? && Final(e.status)
  }

  function ScrubbedRow(cfg: Config, at: int, e: Event): Event {
    if Expired(cfg, at, e) then e.(rawPayload := None) else e
  }

  function Scrubbed(cfg: Config, at: int, rows: seq<Event>): (r: seq<Event>)
    ensures |r| == |rows| && forall i :: 0 <= i < |rows| ==> r[i] == ScrubbedRow(cfg, at, rows[i])
  {
    seq(|rows|, i requires 0 <= i < |rows| => ScrubbedRow(cfg, at, rows[i]))
  }

  predicate Purgeable(cfg: Config, at: int, e: Event) {
    e.receivedAt < at - cfg.Archive() && Final(e.status)
  }

  function Purged(cfg: Config, at: int, rows: seq<Event>): seq<Event> {
    if rows == [] then []
    else Purged(cfg, at, rows[..|rows| - 1]) + if Purgeable(cfg, at, Last(rows)) then [] else [Last(rows)]
  }

  /** Which rows each statement selects. */
  function ToScrub(cfg: Config, at: int, rows: seq<Event>): seq<bool> {
    seq(|rows|, i requires 0 <= i < |rows| => Expired(cfg, at, rows[i]))
  }

  function ToPurge(cfg: Config, at: int, rows: seq<Event>): seq<bool> {
    seq(|rows|, i requires 0 <= i < |rows| => Purgeable(cfg, at, rows[i]))
  }

  /** Purging loses exactly the purgeable rows. */
  lemma {:induction false} PurgedExact(cfg: Config, at: int, rows: seq<Event>, e: Event)
    ensures multiset(Purged(cfg, at, rows))[e] == if Purgeable(cfg, at, e) then 0 else multiset(rows)[e]
  {
    if rows != [] {
      var init := rows[..|rows| - 1];
      PurgedExact(cfg, at, init, e);
      assert rows == init + [Last(rows)];
      var kept := Purged(cfg, at, init);
      assert multiset(kept + [Last(rows)]) == multiset(kept) + multiset{Last(rows)};
    }
  }

  lemma {:induction false} PurgedCount(cfg: Config, at: int, rows: seq<Event>)
    ensures |Purged(cfg, at, rows)| + CountTrue(ToPurge(cfg, at, rows)) == |rows|
  {
    if rows != [] {
      var init := rows[..|rows| - 1];
      PurgedCount(cfg, at, init);
      assert ToPurge(cfg, at, rows)[..|init|] == ToPurge(cfg, at, init);
    }
  }

  lemma {:induction false} ScrubKeepsNewest(cfg: Config, at: int, rows: seq<Event>, d: Delivery, since: int)
    ensures Newest(Scrubbed(cfg, at, rows), d, since)
         == match Newest(rows, d, since) case None => None case Some(e) => Some(ScrubbedRow(cfg, at, e))
  {
    if rows != [] {
      var init := rows[..|rows| - 1];
      ScrubKeepsNewest(cfg, at, init, d, since);
      assert Scrubbed(cfg, at, rows)[..|rows| - 1] == Scrubbed(cfg, at, init);
    }
  }

  lemma {:induction false} PurgeKeepsNewest(cfg: Config, at: int, rows: seq<Event>, d: Delivery, since: int)
    requires at - cfg.Archive() <= since
    ensures Newest(Purged(cfg, at, rows), d, since) == Newest(rows, d, since)
  {
    if rows != [] {
      var init := rows[..|rows| - 1];
      PurgeKeepsNewest(cfg, at, init, d, since);
      if Purgeable(cfg, at, Last(rows)) {
        assert !Candidate(d, since, Last(rows));
        assert Purged(cfg, at, rows) == Purged(cfg, at, init);
      } else {
        var kept := Purged(cfg, at, init);
        assert (kept + [Last(rows)])[..|kept|] == kept;
      }
    }
  }

  lemma ScrubKeepsVerdict(cfg: Config, at: int, rows: seq<Event>, d: Delivery, checkedAt: int, window: int)
    ensures Protect(Scrubbed(cfg, at, rows), d, checkedAt, window) == Protect(rows, d, checkedAt, window)
  {
    ScrubKeepsNewest(cfg, at, rows, d, checkedAt - window);
    var found := Newest(rows, d, checkedAt - window);
    if found.Some? {
      assert BuildMatch(d, ScrubbedRow(cfg, at, found.value)) == BuildMatch(d, found.value);
    }
  }

  lemma PurgeKeepsVerdict(cfg: Config, at: int, rows: seq<Event>, d: Delivery, checkedAt: int)
    requires cfg.Archive() >= cfg.window && at <= checkedAt
    ensures Protect(Purged(cfg, at, rows), d, checkedAt, cfg.window) == Protect(rows, d, checkedAt, cfg.window)
  {
    var purged := Purged(cfg, at, rows);
    PurgeKeepsNewest(cfg, at, rows, d, checkedAt - cfg.window);
    SameNewestSameVerdict(purged, rows, d, checkedAt, cfg.window);
  }

  lemma SameNewestSameVerdict(a: seq<Event>, b: seq<Event>, d: Delivery, checkedAt: int, window: int)
    requires Newest(a, d, checkedAt - window) == Newest(b, d, checkedAt - window)
    ensures Protect(a, d, checkedAt, window) == Protect(b, d, checkedAt, window)
  {
  }

  /** If events are archived no sooner than the replay window closes, a cleanup changes no later verdict: not whether a
      delivery clears, nor which event it is said to match, nor how. */
  lemma CleanupKeepsVerdicts(cfg: Config, scrubAt: int, purgeAt: int, rows: seq<Event>, d: Delivery, checkedAt: int)
    requires cfg.Archive() >= cfg.window && purgeAt <= checkedAt
    ensures Protect(Purged(cfg, purgeAt, Scrubbed(cfg, scrubAt, rows)), d, checkedAt, cfg.window)
         == Protect(rows, d, checkedAt, cfg.window)
  {
    var scrubbed := Scrubbed(cfg, scrubAt, rows);
    PurgeKeepsVerdict(cfg, purgeAt, scrubbed, d, checkedAt);
    ScrubKeepsVerdict(cfg, scrubAt, rows, d, checkedAt, cfg.window);
  }

  // ---- The table as an object ----

  class EventTable {
    var rows: seq<Event>
    var nextId: nat

    constructor ()
      ensures rows == [] && nextId == 1
    {
      rows, nextId := [], 1;
    }

    /** Adds the event and returns its position. */
    method Persist(cfg: Config, r: Request) returns (at: nat)
      modifies this
      ensures at == |old(rows)| && rows == old(rows) + [BuildEvent(cfg, old(nextId), r)] && nextId == old(nextId) + 1
    {
      at := |rows|;
      rows := rows + [BuildEvent(cfg, nextId, r)];
      nextId := nextId + 1;
    }

    /** Sets the status, and those of the other columns that are given; metadata is merged into what is there. */
    method SetStatus(at: nat, status: Status, acknowledgedAt: Option<int>, processedAt: Option<int>, error: Option<string>,
                     normalized: Option<Fields>, updates: Option<Fields>)
      requires at < |rows|
      modifies `rows
      ensures rows == old(rows)[at := old(rows[at]).(
        status := status,
        acknowledgedAt := if acknowledgedAt.Some? then acknowledgedAt else old(rows[at]).acknowledgedAt,
        processedAt := if processedAt.Some? then processedAt else old(rows[at]).processedAt,
        error := if error.Some? then error else old(rows[at]).error,
        normalized := if normalized.Some? then normalized else old(rows[at]).normalized,
        metadata := MergedMetadata(old(rows[at]).metadata, updates))]
    {
      var event := rows[at].(status := status);
      if acknowledgedAt.Some? {
        event := event.(acknowledgedAt := acknowledgedAt);
      }
      if processedAt.Some? {
        event := event.(processedAt := processedAt);
      }
      if error.Some? {
        event := event.(error := error);
      }
      if normalized.Some? {
        event := event.(normalized := normalized);
      }
      var merged := MergedMetadata(event.metadata, updates);
      if merged.Some? || event.metadata.Some? {
        event := event.(metadata := merged);
      }
      rows := rows[at := event];
    }

    /** Receive, verify, validate, protect, persist, acknowledge, then enqueue or fail. */
    method Ingest(cfg: Config, r: Request) returns (answer: Result<Event, Refusal>)
      modifies this
      ensures answer == Answer(cfg, old(rows), old(nextId), r)
      ensures rows == old(rows) + if Persists(cfg, old(rows), r) then [Stored(cfg, old(nextId), r)] else []
      ensures nextId == if Persists(cfg, old(rows), r) then old(nextId) + 1 else old(nextId)
      ensures Promised(cfg, r, old(nextId), old(rows), rows, answer)
    {
      PromiseKept(cfg, rows, nextId, r);
      ghost var before := rows;
      assert before + [] == before;
      if cfg.hasVerifier {
        if !SignatureAccepted(cfg, r) {
          return Err(BadSignature);
        }
      } else if cfg.verificationEnabled {
        return Err(VerifierRequired);
      }
      if !r.valid {
        return Err(Invalid);
      }
      if cfg.replayEnabled {
        var verdict := Protect(rows, r.delivery, r.checkedAt, cfg.window);
        if verdict != Clear {
          return Err(ReplayRefused(verdict));
        }
      }
      answer := Record(cfg, r);
    }

    /** Persist, acknowledge, then enqueue or fail. */
    method Record(cfg: Config, r: Request) returns (answer: Result<Event, Refusal>)
      modifies this
      ensures rows == old(rows) + [Stored(cfg, old(nextId), r)] && nextId == old(nextId) + 1
      ensures answer == if r.enqueued.Ok? then Ok(Stored(cfg, old(nextId), r)) else Err(EnqueueFailed(r.enqueued.error))
    {
      var at := Persist(cfg, r);
      MergingNotes(r.metadata, None);
      MergingNotes(r.metadata, Some(if r.enqueued.Ok? then r.enqueued.value else ENQUEUE_FAILED));
      assert r.metadata + map[] == r.metadata;
      SetStatus(at, Acknowledged, Some(r.receivedAt), None, None, None, None);
      if r.enqueued.Err? {
        SetStatus(at, Failed, None, Some(r.finishedAt), Some(r.enqueued.error), None, Some(ENQUEUE_FAILED));
        return Err(EnqueueFailed(r.enqueued.error));
      }
      SetStatus(at, Enqueued, None, None, None, None, Some(r.enqueued.value));
      answer := Ok(rows[at]);
    }

    /** Clears the payloads of exactly the expired events, and counts them; nothing expired is left. */
    method ScrubExpiredPayloads(cfg: Config, at: int) returns (count: nat)
      modifies `rows
      ensures rows == Scrubbed(cfg, at, old(rows)) && forall i :: 0 <= i < |rows| ==> !Expired(cfg, at, rows[i])
      ensures forall i :: 0 <= i < |rows| ==>
        rows[i] == if cfg.retentionDays > 0 && old(rows)[i].receivedAt < at - cfg.retentionDays * 86_400 * SECOND
                      && old(rows)[i].status in {Processed, Failed, Rejected}
                   then old(rows)[i].(rawPayload := None) else old(rows)[i]
      ensures count == |set i | 0 <= i < |old(rows)| && rows[i] != old(rows)[i]|
    {
      var marks := ToScrub(cfg, at, rows);
      count := 0;
      CountTrueIs(marks);
      ghost var before := rows;
      if cfg.retentionDays > 0 {
        count := CountTrue(marks);
        rows := Scrubbed(cfg, at, rows);
      } else {
        assert rows == Scrubbed(cfg, at, rows);
        assert (set i | 0 <= i < |marks| && marks[i]) == {};
      }
      assert (set i | 0 <= i < |marks| && marks[i]) == set i | 0 <= i < |before| && rows[i] != before[i];
    }

    /** Deletes every final event older than the archive period, as often as it is there, and no other, and counts them. */
    method PurgeArchivedEvents(cfg: Config, at: int) returns (count: nat)
      modifies `rows
      ensures rows == Purged(cfg, at, old(rows)) && |rows| + count == |old(rows)|
      ensures forall e ::
        multiset(rows)[e] == if e.receivedAt < at - cfg.archiveDays * 86_400 * SECOND && e.status in {Processed, Failed, Rejected}
                             then 0 else multiset(old(rows))[e]
    {
      forall e ensures multiset(Purged(cfg, at, rows))[e] == if Purgeable(cfg, at, e) then 0 else multiset(rows)[e] {
        PurgedExact(cfg, at, rows, e);
      }
      PurgedCount(cfg, at, rows);
      count := CountTrue(ToPurge(cfg, at, rows));
      rows := Purged(cfg, at, rows);
    }

    /** Both cleanups in one pass; later verdicts are as if it had not run. */
    method RunFullCleanup(cfg: Config, scrubAt: int, purgeAt: int) returns (scrubbed: nat, purged: nat)
      modifies `rows
      ensures rows == Purged(cfg, purgeAt, Scrubbed(cfg, scrubAt, old(rows))) && |rows| + purged == |old(rows)|
      ensures cfg.Archive() >= cfg.window ==>
        forall d, checkedAt :: purgeAt <= checkedAt ==>
          Protect(rows, d, checkedAt, cfg.window) == Protect(old(rows), d, checkedAt, cfg.window)
    {
      scrubbed := ScrubExpiredPayloads(cfg, scrubAt);
      purged := PurgeArchivedEvents(cfg, purgeAt);
      if cfg.Archive() >= cfg.window {
        forall d, checkedAt | purgeAt <= checkedAt
          ensures Protect(rows, d, checkedAt, cfg.window) == Protect(old(rows), d, checkedAt, cfg.window)
        {
          CleanupKeepsVerdicts(cfg, scrubAt, purgeAt, old(rows), d, checkedAt);
        }
      }
    }
  }
}
