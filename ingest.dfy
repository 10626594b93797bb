/**
 * The batch import of scripts/ingest.py (`ingest_data`): the tables are
 * dropped and recreated, then each video record of the document is turned
 * into a `videos` row followed by its snapshot rows, all added to one session,
 * which commits after every 50th video and once more at the end. The first
 * missing key or unparsable timestamp raises and ends the run.
 */
module Ingest {
  import opened Wrappers
  import opened Models

  /** A snapshot object of the JSON document; `None` is a key that is absent. */
  datatype SnapshotRecord = SnapshotRecord(
    id: Option<string>,
    videoId: Option<string>,
    views: Option<int>, likes: Option<int>, comments: Option<int>, reports: Option<int>,
    deltaViews: Option<int>, deltaLikes: Option<int>, deltaComments: Option<int>, deltaReports: Option<int>,
    createdAt: Option<string>,
    updatedAt: Option<string>)

  /** A video object of the JSON document, with its nested `snapshots` list. */
  datatype VideoRecord = VideoRecord(
    id: Option<string>,
    creatorId: Option<string>,
    videoCreatedAt: Option<string>,
    views: Option<int>, likes: Option<int>, comments: Option<int>, reports: Option<int>,
    createdAt: Option<string>,
    updatedAt: Option<string>,
    snapshots: Option<seq<SnapshotRecord>>)

  /** The whole document; `videos` may be absent. */
  datatype Document = Document(videos: Option<seq<VideoRecord>>)

  /** What stops a record: `KeyError` for an absent key, `ValueError` from `fromisoformat`. */
  datatype FieldError = MissingKey(key: string) | BadTimestamp(key: string)

  /** Where in a video record the failure happened. */
  datatype RecordError = VideoField(error: FieldError) | SnapshotField(position: nat, error: FieldError)

  /**
   * Why a run stopped: a record that could not be built (the index of its
   * video), or a commit the database refused after `processed` videos.
   */
  datatype IngestError = RecordFault(index: nat, cause: RecordError) | IntegrityFault(processed: nat)

  /** `datetime.fromisoformat`, a partial parser given from outside. */
  type Parser = string -> Option<Timestamp>

  /** `d[key]`. */
  function Lookup<T>(value: Option<T>, key: string): (r: Result<T, FieldError>)
    ensures r.Success? <==> value.Some?
    ensures r.Success? ==> r.value == value.value
    ensures r.Failure? ==> r.error == MissingKey(key)
  {
    if value.Some? then Success(value.value) else Failure(MissingKey(key))
  }

  /** `datetime.fromisoformat(d[key])`. */
  function ParseAt(value: Option<string>, key: string, parse: Parser): (r: Result<Timestamp, FieldError>)
    ensures r.Success? <==> value.Some? && parse(value.value).Some?
    ensures r.Success? ==> r.value == parse(value.value).value
    ensures value.None? ==> r == Failure(MissingKey(key))
    ensures value.Some? && parse(value.value).None? ==> r == Failure(BadTimestamp(key))
  {
    var text :- Lookup(value, key);
    if parse(text).Some? then Success(parse(text).value) else Failure(BadTimestamp(key))
  }

  /** `fromisoformat(d['updated_at']) if d.get('updated_at') else None`: absent or empty gives `None`. */
  function OptionalTimestamp(value: Option<string>, parse: Parser): (r: Result<Option<Timestamp>, FieldError>)
    ensures r == Success(None) <==> value.None? || value.value == ""
    ensures r.Failure? <==> value.Some? && value.value != "" && parse(value.value).None?
    ensures r.Success? && r.value.Some? ==> value.Some? && r.value == parse(value.value)
  {
    if value.None? || value.value == "" then Success(None)
    else if parse(value.value).Some? then Success(parse(value.value))
    else Failure(BadTimestamp("updated_at"))
  }

  /** A record from which `Video(...)` is built without raising. */
  predicate VideoBuilds(rec: VideoRecord, parse: Parser) {
    && rec.id.Some? && rec.creatorId.Some?
    && rec.videoCreatedAt.Some? && parse(rec.videoCreatedAt.value).Some?
    && rec.views.Some? && rec.likes.Some? && rec.comments.Some? && rec.reports.Some?
    && rec.createdAt.Some? && parse(rec.createdAt.value).Some?
    && (rec.updatedAt.None? || rec.updatedAt.value == "" || parse(rec.updatedAt.value).Some?)
  }

  /**
   * The `Video(...)` of lines 57-67: the keyword arguments are evaluated in
   * order, so the first absent key or bad timestamp is the one reported.
   */
  function BuildVideo(rec: VideoRecord, parse: Parser): (r: Result<Video, FieldError>)
    ensures r.Success? <==> VideoBuilds(rec, parse)
    ensures r.Success? ==>
      && r.value.id == rec.id.value
      && r.value.creatorId == rec.creatorId.value
      && r.value.videoCreatedAt == parse(rec.videoCreatedAt.value).value
      && r.value.counts == Counters(rec.views.value, rec.likes.value, rec.comments.value, rec.reports.value)
      && r.value.createdAt == parse(rec.createdAt.value).value
      && (r.value.updatedAt.None? <==> rec.updatedAt.None? || rec.updatedAt.value == "")
      && (r.value.updatedAt.Some? ==> r.value.updatedAt == parse(rec.updatedAt.value))
    ensures rec.id.None? ==> r == Failure(MissingKey("id"))
  {
    var id :- Lookup(rec.id, "id");
    var creatorId :- Lookup(rec.creatorId, "creator_id");
    var videoCreatedAt :- ParseAt(rec.videoCreatedAt, "video_created_at", parse);
    var views :- Lookup(rec.views, "views_count");
    var likes :- Lookup(rec.likes, "likes_count");
    var comments :- Lookup(rec.comments, "comments_count");
    var reports :- Lookup(rec.reports, "reports_count");
    var createdAt :- ParseAt(rec.createdAt, "created_at", parse);
    var updatedAt :- OptionalTimestamp(rec.updatedAt, parse);
    Success(Video(id, creatorId, videoCreatedAt, Counters(views, likes, comments, reports), createdAt, updatedAt))
  }

  /** A record from which `VideoSnapshot(...)` is built without raising. */
  predicate SnapshotBuilds(rec: SnapshotRecord, parse: Parser) {
    && rec.id.Some? && rec.videoId.Some?
    && rec.views.Some? && rec.likes.Some? && rec.comments.Some? && rec.reports.Some?
    && rec.deltaViews.Some? && rec.deltaLikes.Some? && rec.deltaComments.Some? && rec.deltaReports.Some?
    && rec.createdAt.Some? && parse(rec.createdAt.value).Some?
    && (rec.updatedAt.None? || rec.updatedAt.value == "" || parse(rec.updatedAt.value).Some?)
  }

  /**
   * The `VideoSnapshot(...)` of lines 73-86. `video_id` is taken from the
   * snapshot record itself and the deltas are stored as given.
   */
  function BuildSnapshot(rec: SnapshotRecord, parse: Parser): (r: Result<Snapshot, FieldError>)
    ensures r.Success? <==> SnapshotBuilds(rec, parse)
    ensures r.Success? ==>
      && r.value.id == rec.id.value
      && r.value.videoId == rec.videoId.value
      && r.value.counts == Counters(rec.views.value, rec.likes.value, rec.comments.value, rec.reports.value)
      && r.value.deltas == Counters(rec.deltaViews.value, rec.deltaLikes.value, rec.deltaComments.value, rec.deltaReports.value)
      && r.value.createdAt == parse(rec.createdAt.value).value
      && (r.value.updatedAt.None? <==> rec.updatedAt.None? || rec.updatedAt.value == "")
      && (r.value.updatedAt.Some? ==> r.value.updatedAt == parse(rec.updatedAt.value))
    ensures rec.id.None? ==> r == Failure(MissingKey("id"))
  {
    var id :- Lookup(rec.id, "id");
    var videoId :- Lookup(rec.videoId, "video_id");
    var views :- Lookup(rec.views, "views_count");
    var likes :- Lookup(rec.likes, "likes_count");
    var comments :- Lookup(rec.comments, "comments_count");
    var reports :- Lookup(rec.reports, "reports_count");
    var deltaViews :- Lookup(rec.deltaViews, "delta_views_count");
    var deltaLikes :- Lookup(rec.deltaLikes, "delta_likes_count");
    var deltaComments :- Lookup(rec.deltaComments, "delta_comments_count");
    var deltaReports :- Lookup(rec.deltaReports, "delta_reports_count");
    var createdAt :- ParseAt(rec.createdAt, "created_at", parse);
    var updatedAt :- OptionalTimestamp(rec.updatedAt, parse);
    Success(Snapshot(id, videoId, Counters(views, likes, comments, reports),
      Counters(deltaViews, deltaLikes, deltaComments, deltaReports), createdAt, updatedAt))
  }

  /**
   * The video the import builds is the row the schema's insert produces when
   * every counter and `created_at` are passed, whatever the insertion time.
   */
  lemma BuildVideoIsInsert(rec: VideoRecord, parse: Parser, now: Timestamp)
    requires VideoBuilds(rec, parse)
    ensures BuildVideo(rec, parse) == Success(NewVideo(
      rec.id.value, rec.creatorId.value, parse(rec.videoCreatedAt.value).value,
      CounterArgs(Some(rec.views.value), Some(rec.likes.value), Some(rec.comments.value), Some(rec.reports.value)),
      Some(parse(rec.createdAt.value).value), BuildVideo(rec, parse).value.updatedAt, now))
  {
  }

  /** The snapshot the import builds is the row the schema's insert produces when every counter is passed. */
  lemma BuildSnapshotIsInsert(rec: SnapshotRecord, parse: Parser)
    requires SnapshotBuilds(rec, parse)
    ensures BuildSnapshot(rec, parse) == Success(NewSnapshot(
      rec.id.value, rec.videoId.value,
      CounterArgs(Some(rec.views.value), Some(rec.likes.value), Some(rec.comments.value), Some(rec.reports.value)),
      CounterArgs(Some(rec.deltaViews.value), Some(rec.deltaLikes.value), Some(rec.deltaComments.value), Some(rec.deltaReports.value)),
      parse(rec.createdAt.value).value, BuildSnapshot(rec, parse).value.updatedAt))
  {
  }

  /** `data.get("videos", [])`. */
  function VideoRecords(doc: Document): seq<VideoRecord> {
    doc.videos.GetOr([])
  }

  /** `vid_data.get('snapshots', [])`. */
  function SnapshotRecords(rec: VideoRecord): seq<SnapshotRecord> {
    rec.snapshots.GetOr([])
  }

  /** The result of building each snapshot record on its own, in order. */
  function SnapshotOutcomes(snaps: seq<SnapshotRecord>, parse: Parser): (r: seq<Result<Snapshot, FieldError>>)
    ensures |r| == |snaps|
  {
    seq(|snaps|, i requires 0 <= i < |snaps| => BuildSnapshot(snaps[i], parse))
  }

  /**
   * The snapshot rows of the first `n` snapshot outcomes in order, or the
   * first of them that failed, tagged with its position.
   */
  function CollectSnapshots(outs: seq<Result<Snapshot, FieldError>>, n: nat): Result<seq<Row>, RecordError>
    requires n <= |outs|
    decreases n
  {
    if n == 0 then Success([])
    else
      var rows :- CollectSnapshots(outs, n - 1);
      match outs[n - 1]
      case Failure(e) => Failure(SnapshotField(n - 1, e))
      case Success(s) => Success(rows + [SnapshotRow(s)])
  }

  /** The snapshot rows of the first `n` snapshot records, in order, or the first of them that fails. */
  function BuildSnapshots(snaps: seq<SnapshotRecord>, n: nat, parse: Parser): Result<seq<Row>, RecordError>
    requires n <= |snaps|
  {
    CollectSnapshots(SnapshotOutcomes(snaps, parse), n)
  }

  /**
   * `outs` holds the outcome of each snapshot record of `snaps`. The link is
   * only unfolded where a snapshot is actually built.
   */
  ghost predicate SnapshotOutcomesOf(outs: seq<Result<Snapshot, FieldError>>, snaps: seq<SnapshotRecord>, parse: Parser) {
    && |outs| == |snaps|
    && forall i {:trigger BuildSnapshot(snaps[i], parse)} :: 0 <= i < |snaps| ==> outs[i] == BuildSnapshot(snaps[i], parse)
  }

  lemma SnapshotOutcomesMatch(snaps: seq<SnapshotRecord>, parse: Parser)
    ensures SnapshotOutcomesOf(SnapshotOutcomes(snaps, parse), snaps, parse)
  {
  }

  /** The rows one video record adds: its video, then its snapshots in record order. */
  function BuildRecord(rec: VideoRecord, parse: Parser): Result<seq<Row>, RecordError> {
    match BuildVideo(rec, parse)
    case Failure(e) => Failure(VideoField(e))
    case Success(v) =>
      var snaps :- BuildSnapshots(SnapshotRecords(rec), |SnapshotRecords(rec)|, parse);
      Success([VideoRow(v)] + snaps)
  }

  /** The result of building each video record on its own, in input order. */
  function RecordOutcomes(recs: seq<VideoRecord>, parse: Parser): (r: seq<Result<seq<Row>, RecordError>>)
    ensures |r| == |recs|
  {
    seq(|recs|, i requires 0 <= i < |recs| => BuildRecord(recs[i], parse))
  }

  /**
   * The rows of the first `n` record outcomes in order, or the first of them
   * that failed, tagged with its index.
   */
  function Collect(outs: seq<Result<seq<Row>, RecordError>>, n: nat): Result<seq<Row>, IngestError>
    requires n <= |outs|
    decreases n
  {
    if n == 0 then Success([])
    else
      var rows :- Collect(outs, n - 1);
      match outs[n - 1]
      case Failure(e) => Failure(RecordFault(n - 1, e))
      case Success(more) => Success(rows + more)
  }

  /** The rows of the first `n` video records in input order, or the first of them that fails. */
  function BuildRows(recs: seq<VideoRecord>, n: nat, parse: Parser): Result<seq<Row>, IngestError>
    requires n <= |recs|
  {
    Collect(RecordOutcomes(recs, parse), n)
  }

  /**
   * `outs` holds the outcome of each record of `recs`. The link is only
   * unfolded where a record is actually built.
   */
  ghost predicate RecordOutcomesOf(outs: seq<Result<seq<Row>, RecordError>>, recs: seq<VideoRecord>, parse: Parser) {
    && |outs| == |recs|
    && forall i {:trigger BuildRecord(recs[i], parse)} :: 0 <= i < |recs| ==> outs[i] == BuildRecord(recs[i], parse)
  }

  lemma RecordOutcomesMatch(recs: seq<VideoRecord>, parse: Parser)
    ensures RecordOutcomesOf(RecordOutcomes(recs, parse), recs, parse)
  {
  }

  /** The number of videos handled before the last commit that follows video `i - 1`. */
  function BatchStart(i: nat): (b: nat)
    ensures b <= i < b + 50 && b % 50 == 0
  {
    var r := i % 50;
    assert i == i / 50 * 50 + r;
    i - r
  }

  /** The numbers printed by `Processed {i + 1} videos...` while `n` videos are handled. */
  function ProgressPoints(n: nat): (r: seq<nat>)
    ensures |r| == n / 50
    decreases n
  {
    if n < 50 then [] else ProgressPoints(n - 50) + [n / 50 * 50]
  }

  /** The `j`-th progress message reports `(j + 1) * 50` videos. */
  lemma {:induction false} ProgressPointsAt(n: nat)
    ensures forall j :: 0 <= j < |ProgressPoints(n)| ==> ProgressPoints(n)[j] == (j + 1) * 50
    decreases n
  {
    if n >= 50 {
      ProgressPointsAt(n - 50);
    }
  }

  /**
   * A commit follows video index `i` exactly when `i + 1` is a multiple of
   * 50: those are the numbers in the progress list, and there are `n / 50` of
   * them before the final commit.
   */
  lemma {:induction false} ProgressPointsExact(n: nat, i: nat)
    requires i < n
    ensures (i + 1) in ProgressPoints(n) <==> (i + 1) % 50 == 0
  {
    var r := ProgressPoints(n);
    ProgressPointsAt(n);
    if (i + 1) % 50 == 0 {
      var j := (i + 1) / 50 - 1;
      assert (j + 1) * 50 == i + 1;
      assert j < n / 50;
      assert r[j] == i + 1;
    }
  }

  /** Once the first `k` records fail, all of them fail with the same error. */
  lemma {:induction false} CollectRest(outs: seq<Result<seq<Row>, RecordError>>, k: nat)
    requires k <= |outs|
    requires Collect(outs, k).Failure?
    ensures Collect(outs, |outs|) == Collect(outs, k)
    decreases |outs| - k
  {
    if k < |outs| {
      CollectRest(outs, k + 1);
    }
  }

  /** Once the first `k` snapshot outcomes fail, all of them fail with the same error. */
  lemma {:induction false} CollectSnapshotsRest(outs: seq<Result<Snapshot, FieldError>>, k: nat)
    requires k <= |outs|
    requires CollectSnapshots(outs, k).Failure?
    ensures CollectSnapshots(outs, |outs|) == CollectSnapshots(outs, k)
    decreases |outs| - k
  {
    if k < |outs| {
      CollectSnapshotsRest(outs, k + 1);
    }
  }

  /** Closing batch `b` prints the number of videos handled so far. */
  lemma ProgressPointsClose(b: nat)
    ensures ProgressPoints(b * 50 + 50) == ProgressPoints(b * 50) + [b * 50 + 50]
  {
    assert (b * 50 + 50) / 50 * 50 == b * 50 + 50;
  }

  /** Video `k` of the `batches`-th batch closes it exactly when `k + 1` is a multiple of 50. */
  lemma BatchCloses(batches: nat, k: nat)
    requires batches * 50 <= k < batches * 50 + 50
    ensures (k + 1) % 50 == 0 <==> k + 1 == batches * 50 + 50
  {
  }

  /**
   * Video `k` of the `batches`-th batch: the batch starts at `batches * 50`
   * and as many progress messages were printed before it as batches closed.
   */
  lemma BatchOf(batches: nat, k: nat)
    requires batches * 50 <= k < batches * 50 + 50
    ensures k / 50 == batches && BatchStart(k) == batches * 50
    ensures ProgressPoints(k) == ProgressPoints(batches * 50)
  {
    ProgressPointsAt(k);
    ProgressPointsAt(batches * 50);
  }

  /** A successful snapshot list yields one row per snapshot record, in record order. */
  lemma {:induction false} CollectSnapshotsRows(outs: seq<Result<Snapshot, FieldError>>, n: nat)
    requires n <= |outs| && CollectSnapshots(outs, n).Success?
    ensures |CollectSnapshots(outs, n).value| == n
    ensures forall j :: 0 <= j < n ==> outs[j].Success? && CollectSnapshots(outs, n).value[j] == SnapshotRow(outs[j].value)
    decreases n
  {
    if n > 0 {
      CollectSnapshotsRows(outs, n - 1);
    }
  }

  /** A video record that builds adds its video first, then one row per snapshot record, in order. */
  lemma BuildRecordRows(rec: VideoRecord, parse: Parser)
    requires BuildRecord(rec, parse).Success?
    ensures BuildVideo(rec, parse).Success?
    ensures var rows, snaps := BuildRecord(rec, parse).value, SnapshotRecords(rec);
      && |rows| == 1 + |snaps|
      && rows[0] == VideoRow(BuildVideo(rec, parse).value)
      && forall j :: 0 <= j < |snaps| ==>
           BuildSnapshot(snaps[j], parse).Success? && rows[1 + j] == SnapshotRow(BuildSnapshot(snaps[j], parse).value)
  {
    var snaps := SnapshotRecords(rec);
    var outs := SnapshotOutcomes(snaps, parse);
    SnapshotOutcomesMatch(snaps, parse);
    CollectSnapshotsRows(outs, |snaps|);
  }

  /**
   * Once the first `n` records build, each earlier record `i` builds too and
   * its rows come right after those of the records before it: the rows of
   * the first `i + 1` records are a prefix of the rows of the first `n`.
   */
  lemma {:induction false} CollectInOrder(outs: seq<Result<seq<Row>, RecordError>>, i: nat, n: nat)
    requires i < n <= |outs| && Collect(outs, n).Success?
    ensures Collect(outs, i).Success? && outs[i].Success?
    ensures Collect(outs, i + 1).value == Collect(outs, i).value + outs[i].value
    ensures Collect(outs, i + 1).value <= Collect(outs, n).value
    decreases n
  {
    if n > i + 1 {
      CollectInOrder(outs, i, n - 1);
    }
  }

  /** Rows are produced in input order, each video record's rows as one block. */
  lemma BuildRowsInOrder(recs: seq<VideoRecord>, parse: Parser, i: nat, n: nat)
    requires i < n <= |recs| && BuildRows(recs, n, parse).Success?
    ensures BuildRows(recs, i, parse).Success? && BuildRecord(recs[i], parse).Success?
    ensures BuildRows(recs, i + 1, parse).value == BuildRows(recs, i, parse).value + BuildRecord(recs[i], parse).value
    ensures BuildRows(recs, i + 1, parse).value <= BuildRows(recs, n, parse).value
  {
    RecordOutcomesMatch(recs, parse);
    CollectInOrder(RecordOutcomes(recs, parse), i, n);
  }

  /** After a run that committed the rows of all records, every row of each record is committed. */
  lemma RecordCommitted(recs: seq<VideoRecord>, parse: Parser, committed: seq<Row>, i: nat)
    requires BuildRows(recs, |recs|, parse) == Success(committed) && i < |recs|
    ensures BuildRecord(recs[i], parse).Success?
    ensures forall r :: r in BuildRecord(recs[i], parse).value ==> r in committed
  {
    BuildRowsInOrder(recs, parse, i, |recs|);
    var before := BuildRows(recs, i, parse).value;
    var rows := BuildRecord(recs[i], parse).value;
    forall r | r in rows
      ensures r in committed
    {
      var k :| 0 <= k < |rows| && rows[k] == r;
      assert (before + rows)[|before| + k] == r;
    }
  }

  /** Every row collected from the first `n` outcomes is a row of one of them. */
  lemma {:induction false} CollectFrom(outs: seq<Result<seq<Row>, RecordError>>, n: nat)
    requires n <= |outs| && Collect(outs, n).Success?
    ensures forall r :: r in Collect(outs, n).value ==> exists i :: 0 <= i < n && outs[i].Success? && r in outs[i].value
    decreases n
  {
    if n > 0 {
      CollectFrom(outs, n - 1);
    }
  }

  /** Nothing but the records' own rows is committed. */
  lemma RowsFromRecords(recs: seq<VideoRecord>, parse: Parser, committed: seq<Row>)
    requires BuildRows(recs, |recs|, parse) == Success(committed)
    ensures forall r :: r in committed ==>
      exists i :: 0 <= i < |recs| && BuildRecord(recs[i], parse).Success? && r in BuildRecord(recs[i], parse).value
  {
    var outs := RecordOutcomes(recs, parse);
    CollectFrom(outs, |recs|);
    forall r | r in committed
      ensures exists i :: 0 <= i < |recs| && BuildRecord(recs[i], parse).Success? && r in BuildRecord(recs[i], parse).value
    {
      var i :| 0 <= i < |recs| && outs[i].Success? && r in outs[i].value;
      assert outs[i] == BuildRecord(recs[i], parse);
    }
  }

  /**
   * After a run that committed the rows of all records, the tables hold every
   * record's video as built from the record.
   */
  lemma StoredVideo(recs: seq<VideoRecord>, parse: Parser, committed: seq<Row>, i: nat)
    requires BuildRows(recs, |recs|, parse) == Success(committed) && Consistent(committed) && i < |recs|
    ensures BuildVideo(recs[i], parse).Success?
    ensures var v := BuildVideo(recs[i], parse).value;
      v.id in Load(committed).videos && Load(committed).videos[v.id] == v
  {
    RecordCommitted(recs, parse, committed, i);
    BuildRecordRows(recs[i], parse);
    LoadConsistent(committed);
    assert BuildRecord(recs[i], parse).value[0] in BuildRecord(recs[i], parse).value;
  }

  /** ... and every snapshot of every record, as built from its snapshot record. */
  lemma StoredSnapshot(recs: seq<VideoRecord>, parse: Parser, committed: seq<Row>, i: nat, j: nat)
    requires BuildRows(recs, |recs|, parse) == Success(committed) && Consistent(committed)
    requires i < |recs| && j < |SnapshotRecords(recs[i])|
    ensures BuildSnapshot(SnapshotRecords(recs[i])[j], parse).Success?
    ensures var sn := BuildSnapshot(SnapshotRecords(recs[i])[j], parse).value;
      sn.id in Load(committed).snapshots && Load(committed).snapshots[sn.id] == sn
  {
    RecordCommitted(recs, parse, committed, i);
    BuildRecordRows(recs[i], parse);
    LoadConsistent(committed);
    assert BuildRecord(recs[i], parse).value[1 + j] in BuildRecord(recs[i], parse).value;
  }

  /** The tables hold a record's video and each of its snapshots, as built from the record. */
  ghost predicate RecordStored(s: Store, rec: VideoRecord, parse: Parser) {
    && BuildVideo(rec, parse).Success?
    && BuildVideo(rec, parse).value.id in s.videos
    && s.videos[BuildVideo(rec, parse).value.id] == BuildVideo(rec, parse).value
    && forall j :: 0 <= j < |SnapshotRecords(rec)| ==>
      && BuildSnapshot(SnapshotRecords(rec)[j], parse).Success?
      && BuildSnapshot(SnapshotRecords(rec)[j], parse).value.id in s.snapshots
      && s.snapshots[BuildSnapshot(SnapshotRecords(rec)[j], parse).value.id] == BuildSnapshot(SnapshotRecords(rec)[j], parse).value
  }

  /** After a run that committed the rows of all records, the tables hold every record. */
  lemma AllStored(recs: seq<VideoRecord>, parse: Parser, committed: seq<Row>)
    requires BuildRows(recs, |recs|, parse) == Success(committed) && Consistent(committed)
    ensures forall i :: 0 <= i < |recs| ==> RecordStored(Load(committed), recs[i], parse)
  {
    forall i | 0 <= i < |recs|
      ensures RecordStored(Load(committed), recs[i], parse)
    {
      StoredVideo(recs, parse, committed, i);
      forall j | 0 <= j < |SnapshotRecords(recs[i])|
        ensures BuildSnapshot(SnapshotRecords(recs[i])[j], parse).Success?
        ensures BuildSnapshot(SnapshotRecords(recs[i])[j], parse).value.id in Load(committed).snapshots
        ensures Load(committed).snapshots[BuildSnapshot(SnapshotRecords(recs[i])[j], parse).value.id]
          == BuildSnapshot(SnapshotRecords(recs[i])[j], parse).value
      {
        StoredSnapshot(recs, parse, committed, i, j);
      }
    }
  }

  /** Regrouping a concatenation, called where the solver does not find the step by itself. */
  lemma AppendAssoc<T>(a: seq<T>, b: seq<T>, c: seq<T>)
    ensures a + (b + c) == (a + b) + c
  {
  }

  /** The database the script writes to, with the one session it opens. */
  class Database {
    /** Rows durably in the tables, in the order they were inserted. */
    var committed: seq<Row>
    /** Rows added to the session since its last commit. */
    var pending: seq<Row>
    /** Successful commits since the tables were last recreated. */
    ghost var commits: nat

    ghost predicate Valid()
      reads this`committed
    {
      Consistent(committed)
    }

    /** The tables as maps from primary key to row. */
    function Tables(): (s: Store)
      reads this`committed
      requires Valid()
      ensures Models.Valid(s)
    {
      LoadConsistent(committed);
      Load(committed)
    }

    constructor ()
      ensures Valid() && committed == [] && pending == [] && commits == 0
    {
      committed, pending, commits := [], [], 0;
    }

    /** `drop_all` then `create_all`, followed by opening a fresh session. */
    method RecreateTables()
      modifies this
      ensures Valid() && committed == [] && pending == [] && commits == 0
    {
      committed, pending, commits := [], [], 0;
    }

    /** `session.add`. */
    method Add(r: Row)
      modifies this
      ensures pending == old(pending) + [r]
      ensures committed == old(committed) && commits == old(commits)
    {
      pending := pending + [r];
    }

    /**
     * `session.commit()`: the database takes the pending rows when the tables
     * with them added are still consistent; otherwise the transaction is
     * rolled back and the commit raises.
     */
    method Commit() returns (ok: bool)
      requires Valid()
      modifies this
      ensures Valid() && pending == []
      ensures ok == Consistent(old(committed) + old(pending))
      ensures committed == if ok then old(committed) + old(pending) else old(committed)
      ensures commits == if ok then old(commits) + 1 else old(commits)
    {
      ok := Consistent(committed + pending);
      if ok {
        committed := committed + pending;
        commits := commits + 1;
      }
      pending := [];
    }

    /** Leaving the session's `async with` block: uncommitted rows are discarded. */
    method Close()
      modifies this
      ensures pending == [] && committed == old(committed) && commits == old(commits)
    {
      pending := [];
    }
  }

  /**
   * The inner loop over a video's snapshot records: each is built and added
   * in order. A failure leaves the snapshots already added pending, as the
   * source does before the exception unwinds.
   */
  method AddSnapshots(db: Database, snaps: seq<SnapshotRecord>, ghost outs: seq<Result<Snapshot, FieldError>>, parse: Parser) returns (err: Option<RecordError>)
    requires SnapshotOutcomesOf(outs, snaps, parse)
    modifies db
    ensures db.committed == old(db.committed) && db.commits == old(db.commits)
    ensures err.None? <==> CollectSnapshots(outs, |outs|).Success?
    ensures err.None? ==> db.pending == old(db.pending) + CollectSnapshots(outs, |outs|).value
    ensures err.Some? ==> CollectSnapshots(outs, |outs|) == Failure(err.value)
    ensures err.Some? ==>
      && err.value.SnapshotField? && err.value.position < |outs|
      && CollectSnapshots(outs, err.value.position).Success?
      && db.pending == old(db.pending) + CollectSnapshots(outs, err.value.position).value
  {
    var j := 0;
    while j < |snaps|
      invariant 0 <= j <= |snaps|
      invariant CollectSnapshots(outs, j).Success?
      invariant db.pending == old(db.pending) + CollectSnapshots(outs, j).value
      invariant db.committed == old(db.committed) && db.commits == old(db.commits)
    {
      var snapshot := BuildSnapshot(snaps[j], parse);
      if snapshot.Failure? {
        CollectSnapshotsRest(outs, j + 1);
        return Some(SnapshotField(j, snapshot.error));
      }
      db.Add(SnapshotRow(snapshot.value));
      j := j + 1;
    }
    return None;
  }

  /**
   * The rows a record has added to the session when building it raises: none
   * when its video fails, else its video and the snapshots before the one
   * that fails.
   */
  function PartialRows(rec: VideoRecord, parse: Parser, e: RecordError): seq<Row> {
    match e
    case VideoField(_) => []
    case SnapshotField(j, _) =>
      if BuildVideo(rec, parse).Success? && j <= |SnapshotRecords(rec)| && BuildSnapshots(SnapshotRecords(rec), j, parse).Success?
      then [VideoRow(BuildVideo(rec, parse).value)] + BuildSnapshots(SnapshotRecords(rec), j, parse).value
      else []
  }

  /**
   * One iteration of the loop over video records: the `Video` is built and
   * added, then each of its snapshots in order.
   */
  method AddRecord(db: Database, rec: VideoRecord, parse: Parser) returns (err: Option<RecordError>)
    modifies db
    ensures db.committed == old(db.committed) && db.commits == old(db.commits)
    ensures err.None? <==> BuildRecord(rec, parse).Success?
    ensures err.None? ==> db.pending == old(db.pending) + BuildRecord(rec, parse).value
    ensures err.Some? ==> BuildRecord(rec, parse) == Failure(err.value)
    ensures err.Some? && err.value.VideoField? ==> db.pending == old(db.pending)
    ensures err.Some? && err.value.SnapshotField? ==>
      && BuildVideo(rec, parse).Success? && err.value.position < |SnapshotRecords(rec)|
      && BuildSnapshots(SnapshotRecords(rec), err.value.position, parse).Success?
    ensures err.Some? ==> db.pending == old(db.pending) + PartialRows(rec, parse, err.value)
  {
    var video := BuildVideo(rec, parse);
    if video.Failure? {
      return Some(VideoField(video.error));
    }
    db.Add(VideoRow(video.value));
    var snaps := SnapshotRecords(rec);
    ghost var outs := SnapshotOutcomes(snaps, parse);
    SnapshotOutcomesMatch(snaps, parse);
    err := AddSnapshots(db, snaps, outs, parse);
    if err.None? {
      AppendAssoc(old(db.pending), [VideoRow(video.value)], CollectSnapshots(outs, |outs|).value);
    } else {
      AppendAssoc(old(db.pending), [VideoRow(video.value)], CollectSnapshots(outs, err.value.position).value);
    }
  }

  /** The commit after the first `c * 50` videos goes through: those rows keep the tables consistent. */
  ghost predicate BatchAccepted(outs: seq<Result<seq<Row>, RecordError>>, c: nat) {
    && c * 50 <= |outs|
    && Collect(outs, c * 50).Success?
    && Consistent(Collect(outs, c * 50).value)
  }

  /** Every one of the first `b` intermediate commits went through. */
  ghost predicate AcceptedThrough(outs: seq<Result<seq<Row>, RecordError>>, b: nat) {
    forall c :: 1 <= c <= b ==> BatchAccepted(outs, c)
  }

  /** Record `i` cannot be built after the ones before it were: the run stops there. */
  lemma CollectStopsAt(outs: seq<Result<seq<Row>, RecordError>>, recs: seq<VideoRecord>, parse: Parser, i: nat, e: RecordError)
    requires RecordOutcomesOf(outs, recs, parse) && i < |recs|
    requires Collect(outs, i).Success? && BuildRecord(recs[i], parse) == Failure(e)
    ensures Collect(outs, i + 1) == Failure(RecordFault(i, e))
  {
  }

  /** Record `i` builds after the ones before it did: its rows follow theirs. */
  lemma CollectExtends(outs: seq<Result<seq<Row>, RecordError>>, recs: seq<VideoRecord>, parse: Parser, i: nat, rows: seq<Row>)
    requires RecordOutcomesOf(outs, recs, parse) && i < |recs|
    requires Collect(outs, i).Success? && BuildRecord(recs[i], parse) == Success(rows)
    ensures Collect(outs, i + 1) == Success(Collect(outs, i).value + rows)
  {
  }

  /**
   * Where the run stands after `i` videos, `batches` of them committed: the
   * rows of the first `i` records are committed or pending, and the committed
   * ones are exactly those of the first `batches * 50` records.
   */
  ghost predicate Checkpoint(outs: seq<Result<seq<Row>, RecordError>>, i: nat, batches: nat, committed: seq<Row>, pending: seq<Row>) {
    && batches * 50 <= i <= |outs| && i < batches * 50 + 50
    && Collect(outs, i) == Success(committed + pending)
    && Collect(outs, batches * 50) == Success(committed)
  }

  /**
   * The body of the loop over video records for video `i`: add its rows,
   * then commit when `i + 1` is a multiple of 50.
   */
  method ImportVideo(db: Database, recs: seq<VideoRecord>, ghost outs: seq<Result<seq<Row>, RecordError>>, i: nat, ghost batches: nat, parse: Parser) returns (err: Option<IngestError>)
    requires RecordOutcomesOf(outs, recs, parse)
    requires i < |recs| && db.Valid() && db.commits == batches
    requires Checkpoint(outs, i, batches, db.committed, db.pending) && AcceptedThrough(outs, batches)
    modifies db
    ensures db.Valid()
    ensures err.None? ==>
      var next := if i + 1 == batches * 50 + 50 then batches + 1 else batches;
      && db.commits == next
      && Checkpoint(outs, i + 1, next, db.committed, db.pending)
      && AcceptedThrough(outs, next)
    ensures err.Some? && err.value.RecordFault? ==>
      && err.value.index == i
      && Collect(outs, i + 1) == Failure(err.value)
      && db.committed == old(db.committed) && db.commits == old(db.commits)
      && db.pending == old(db.pending) + PartialRows(recs[i], parse, err.value.cause)
    ensures err.Some? && err.value.IntegrityFault? ==>
      && db.pending == []
      && err.value.processed == i + 1 && i + 1 == batches * 50 + 50
      && Collect(outs, i + 1).Success?
      && !Consistent(Collect(outs, i + 1).value)
      && db.committed == old(db.committed) && db.commits == old(db.commits)
  {
    ghost var c0, p0 := db.committed, db.pending;
    var failed := AddRecord(db, recs[i], parse);
    if failed.Some? {
      CollectStopsAt(outs, recs, parse, i, failed.value);
      err := Some(RecordFault(i, failed.value));
      assert err.value.cause == failed.value;
      return;
    }
    ghost var rows := BuildRecord(recs[i], parse).value;
    CollectExtends(outs, recs, parse, i, rows);
    AppendAssoc(c0, p0, rows);
    err := CommitBatch(db, outs, i, batches);
  }

  /**
   * The end of pass `i` once its rows are pending: the session commits when
   * `i + 1` closes a batch of 50, and a refused commit raises.
   */
  method CommitBatch(db: Database, ghost outs: seq<Result<seq<Row>, RecordError>>, i: nat, ghost batches: nat) returns (err: Option<IngestError>)
    requires i < |outs| && db.Valid() && db.commits == batches
    requires batches * 50 <= i < batches * 50 + 50
    requires Collect(outs, i + 1) == Success(db.committed + db.pending)
    requires Collect(outs, batches * 50) == Success(db.committed)
    requires AcceptedThrough(outs, batches)
    modifies db
    ensures db.Valid()
    ensures err.None? ==>
      var next := if i + 1 == batches * 50 + 50 then batches + 1 else batches;
      && db.commits == next
      && Checkpoint(outs, i + 1, next, db.committed, db.pending)
      && AcceptedThrough(outs, next)
    ensures err.Some? ==>
      && err == Some(IntegrityFault(i + 1)) && i + 1 == batches * 50 + 50
      && db.pending == []
      && Collect(outs, i + 1).Success?
      && !Consistent(Collect(outs, i + 1).value)
      && db.committed == old(db.committed) && db.commits == old(db.commits)
  {
    BatchCloses(batches, i);
    if (i + 1) % 50 == 0 {
      ghost var rows := Collect(outs, i + 1).value;
      var ok := db.Commit();
      if !ok {
        return Some(IntegrityFault(i + 1));
      }
      assert db.committed == rows && db.committed + db.pending == rows;
      assert i + 1 == (batches + 1) * 50;
      assert BatchAccepted(outs, batches + 1);
    }
    return None;
  }

  /**
   * The loop is running after `i` videos, `batches` of them committed: the
   * checkpoint holds, every intermediate commit went through, and one
   * progress message was printed per commit.
   */
  ghost predicate Running(outs: seq<Result<seq<Row>, RecordError>>, i: nat, batches: nat, committed: seq<Row>, pending: seq<Row>, progress: seq<nat>) {
    && Checkpoint(outs, i, batches, committed, pending)
    && AcceptedThrough(outs, batches)
    && progress == ProgressPoints(batches * 50)
  }

  /**
   * The loop stopped with `e` after `batches` accepted commits, whose rows are
   * `committed`: a record that could not be built inside the open batch, or
   * the commit closing that batch refused, after its progress message.
   */
  ghost predicate Stopped(outs: seq<Result<seq<Row>, RecordError>>, e: IngestError, batches: nat, committed: seq<Row>, progress: seq<nat>) {
    && batches * 50 <= |outs|
    && Collect(outs, batches * 50) == Success(committed)
    && AcceptedThrough(outs, batches)
    && (e.RecordFault? ==>
      && batches * 50 <= e.index < batches * 50 + 50 && e.index < |outs|
      && Collect(outs, |outs|) == Failure(e)
      && progress == ProgressPoints(batches * 50))
    && (e.IntegrityFault? ==>
      && e.processed == batches * 50 + 50 && e.processed <= |outs|
      && Collect(outs, e.processed).Success?
      && !Consistent(Collect(outs, e.processed).value)
      && progress == ProgressPoints(e.processed))
  }

  /** Before the first video nothing is committed, pending or printed. */
  lemma RunningFromEmpty(outs: seq<Result<seq<Row>, RecordError>>)
    ensures Running(outs, 0, 0, [], [], [])
  {
    var none: seq<Row> := [];
    assert Collect(outs, 0).value == none;
    assert none + none == none;
  }

  /**
   * One pass of the loop over the video records: import video `i`, print the
   * progress message when `i + 1` closes a batch, and leave the session when
   * the pass raises.
   */
  method ImportStep(db: Database, recs: seq<VideoRecord>, ghost outs: seq<Result<seq<Row>, RecordError>>, i: nat, ghost batches: nat, progress: seq<nat>, parse: Parser)
    returns (err: Option<IngestError>, progress': seq<nat>, ghost batches': nat)
    requires RecordOutcomesOf(outs, recs, parse)
    requires i < |recs| && db.Valid() && db.commits == batches
    requires Running(outs, i, batches, db.committed, db.pending, progress)
    modifies db
    ensures db.Valid() && db.commits == batches'
    ensures err.None? ==> Running(outs, i + 1, batches', db.committed, db.pending, progress')
    ensures err.Some? ==> db.pending == [] && Stopped(outs, err.value, batches', db.committed, progress')
  {
    progress', batches' := progress, batches;
    err := ImportVideo(db, recs, outs, i, batches, parse);
    if err.Some? && err.value.RecordFault? {
      db.Close();
      CollectRest(outs, i + 1);
      return;
    }
    BatchCloses(batches, i);
    if (i + 1) % 50 == 0 {
      progress' := progress + [i + 1];
      ProgressPointsClose(batches);
      if err.Some? {
        db.Close();
        return;
      }
      batches' := batches + 1;
    }
  }

  /**
   * The loop over the video records of `ingest_data`, from an empty database.
   * It stops at the first record that cannot be built and at the first
   * intermediate commit that fails; otherwise it leaves the rows after the
   * last multiple of 50 pending. `batches` counts the commits made.
   */
  method ImportAll(db: Database, recs: seq<VideoRecord>, ghost outs: seq<Result<seq<Row>, RecordError>>, parse: Parser) returns (err: Option<IngestError>, progress: seq<nat>, ghost batches: nat)
    requires RecordOutcomesOf(outs, recs, parse)
    requires db.Valid() && db.committed == [] && db.pending == [] && db.commits == 0
    modifies db
    ensures db.Valid() && db.commits == batches
    ensures err.None? ==> Running(outs, |outs|, batches, db.committed, db.pending, progress)
    ensures err.Some? ==> db.pending == [] && Stopped(outs, err.value, batches, db.committed, progress)
  {
    err, progress := None, [];
    var i := 0;
    batches := 0;
    RunningFromEmpty(outs);
    while i < |recs|
      invariant i <= |recs| && err.None?
      invariant db.Valid() && db.commits == batches
      invariant Running(outs, i, batches, db.committed, db.pending, progress)
    {
      err, progress, batches := ImportStep(db, recs, outs, i, batches, progress, parse);
      if err.Some? {
        return;
      }
      i := i + 1;
    }
  }

  /** Rows still pending at the end come from records after the last intermediate commit. */
  lemma PendingAfterBatches(outs: seq<Result<seq<Row>, RecordError>>, batches: nat, committed: seq<Row>, pending: seq<Row>)
    requires Checkpoint(outs, |outs|, batches, committed, pending) && pending != []
    ensures batches * 50 < |outs|
  {
    assert |committed + pending| > |committed|;
  }

  /**
   * The commit after the loop: the rows of the records after the last
   * multiple of 50, which may be none.
   */
  method CommitRest(db: Database, ghost outs: seq<Result<seq<Row>, RecordError>>, n: nat, ghost batches: nat) returns (err: Option<IngestError>)
    requires n == |outs| && db.Valid() && db.commits == batches
    requires Checkpoint(outs, |outs|, batches, db.committed, db.pending)
    modifies db
    ensures db.Valid() && db.pending == []
    ensures err.None? ==> Collect(outs, |outs|) == Success(db.committed) && db.commits == batches + 1
    ensures err.Some? ==>
      && err == Some(IntegrityFault(|outs|)) && batches * 50 < |outs| && db.commits == batches
      && Collect(outs, |outs|).Success?
      && !Consistent(Collect(outs, |outs|).value)
      && Collect(outs, batches * 50) == Success(db.committed)
  {
    ghost var c0, p0 := db.committed, db.pending;
    assert p0 == [] ==> c0 + p0 == c0;
    var ok := db.Commit();
    if !ok {
      PendingAfterBatches(outs, batches, c0, p0);
      return Some(IntegrityFault(n));
    }
    return None;
  }

  /**
   * What a run over `recs` reports and leaves committed. On success every
   * record's rows are committed, every commit went through and a progress
   * line was printed for every multiple of 50. When record `k` fails, the
   * batches before its own are committed. When the commit after `m` records
   * is refused, the rows of those `m` records break a key, a foreign key or a
   * range, and every earlier commit went through.
   */
  ghost predicate Reported(recs: seq<VideoRecord>, parse: Parser, res: Result<nat, IngestError>, progress: seq<nat>, committed: seq<Row>) {
    match res
    case Success(n) =>
      && n == |recs|
      && BuildRows(recs, n, parse) == Success(committed)
      && Consistent(committed)
      && AcceptedThrough(RecordOutcomes(recs, parse), n / 50)
      && progress == ProgressPoints(n)
    case Failure(RecordFault(k, e)) =>
      && k < |recs|
      && BuildRows(recs, |recs|, parse) == Failure(RecordFault(k, e))
      && BuildRows(recs, BatchStart(k), parse) == Success(committed)
      && AcceptedThrough(RecordOutcomes(recs, parse), k / 50)
      && progress == ProgressPoints(k)
    case Failure(IntegrityFault(m)) =>
      && 0 < m <= |recs|
      && (m % 50 == 0 || m == |recs|)
      && BuildRows(recs, m, parse).Success?
      && !Consistent(BuildRows(recs, m, parse).value)
      && BuildRows(recs, BatchStart(m - 1), parse) == Success(committed)
      && AcceptedThrough(RecordOutcomes(recs, parse), (m - 1) / 50)
      && progress == ProgressPoints(m)
  }

  /** A record failure inside the loop, in terms of the batch it falls in. */
  lemma ReportRecordFault(recs: seq<VideoRecord>, parse: Parser, batches: nat, k: nat, e: RecordError, progress: seq<nat>, committed: seq<Row>)
    requires batches * 50 <= k < batches * 50 + 50 && k < |recs|
    requires BuildRows(recs, |recs|, parse) == Failure(RecordFault(k, e))
    requires BuildRows(recs, batches * 50, parse) == Success(committed)
    requires AcceptedThrough(RecordOutcomes(recs, parse), batches)
    requires progress == ProgressPoints(batches * 50)
    ensures Reported(recs, parse, Failure(RecordFault(k, e)), progress, committed)
  {
    BatchOf(batches, k);
  }

  /** The final commit went through after every intermediate one did. */
  lemma ReportSuccess(recs: seq<VideoRecord>, parse: Parser, batches: nat, progress: seq<nat>, committed: seq<Row>)
    requires batches * 50 <= |recs| < batches * 50 + 50
    requires BuildRows(recs, |recs|, parse) == Success(committed) && Consistent(committed)
    requires AcceptedThrough(RecordOutcomes(recs, parse), batches)
    requires progress == ProgressPoints(batches * 50)
    ensures Reported(recs, parse, Success(|recs|), progress, committed)
  {
    BatchOf(batches, |recs|);
  }

  /** A commit refused after `m` of `n` records closes the `batches`-th batch or ends the input. */
  lemma RefusedAt(batches: nat, m: nat, n: nat)
    requires batches * 50 < m <= batches * 50 + 50
    requires m == batches * 50 + 50 || m == n
    ensures (m - 1) / 50 == batches && BatchStart(m - 1) == batches * 50
    ensures m % 50 == 0 || m == n
  {
    BatchOf(batches, m - 1);
    if m == batches * 50 + 50 {
      assert m == (batches + 1) * 50;
    }
  }

  /** A refused commit after `m` records, the batches before it committed. */
  lemma ReportIntegrityFault(recs: seq<VideoRecord>, parse: Parser, batches: nat, m: nat, progress: seq<nat>, committed: seq<Row>)
    requires batches * 50 < m <= batches * 50 + 50 && m <= |recs|
    requires m == batches * 50 + 50 || m == |recs|
    requires BuildRows(recs, m, parse).Success? && !Consistent(BuildRows(recs, m, parse).value)
    requires BuildRows(recs, batches * 50, parse) == Success(committed)
    requires AcceptedThrough(RecordOutcomes(recs, parse), batches)
    requires progress == ProgressPoints(m)
    ensures Reported(recs, parse, Failure(IntegrityFault(m)), progress, committed)
  {
    RefusedAt(batches, m, |recs|);
  }

  /** A failed collection names a record before `n` that failed on its own. */
  lemma {:induction false} CollectFaultAt(outs: seq<Result<seq<Row>, RecordError>>, n: nat)
    requires n <= |outs| && Collect(outs, n).Failure?
    ensures Collect(outs, n).error.RecordFault?
    ensures Collect(outs, n).error.index < n && outs[Collect(outs, n).error.index].Failure?
    decreases n
  {
    if Collect(outs, n - 1).Failure? {
      CollectFaultAt(outs, n - 1);
    }
  }

  /** A commit point among the first `b` accepted ones: its rows are consistent. */
  lemma AcceptedAt(outs: seq<Result<seq<Row>, RecordError>>, b: nat, m: nat)
    requires AcceptedThrough(outs, b)
    ensures m % 50 == 0 && 1 <= m / 50 <= b ==> m <= |outs| && Collect(outs, m).Success? && Consistent(Collect(outs, m).value)
  {
    if m % 50 == 0 && 1 <= m / 50 <= b {
      assert BatchAccepted(outs, m / 50);
    }
  }

  /** A collection that succeeds over `n` outcomes saw every one before `n` succeed. */
  lemma SucceedsBefore(outs: seq<Result<seq<Row>, RecordError>>, i: nat, n: nat)
    requires i < |outs| && n <= |outs|
    ensures Collect(outs, n).Success? && i < n ==> outs[i].Success?
  {
    if Collect(outs, n).Success? && i < n {
      CollectInOrder(outs, i, n);
    }
  }

  /**
   * If one run over `recs` has its commit after `m` records refused, no run
   * over `recs` gets past that commit: it too reports a refused commit, no
   * later than `m`.
   */
  lemma RefusedBound(recs: seq<VideoRecord>, parse: Parser, res: Result<nat, IngestError>, progress: seq<nat>, committed: seq<Row>,
                     m: nat, progressM: seq<nat>, committedM: seq<Row>)
    requires Reported(recs, parse, res, progress, committed)
    requires Reported(recs, parse, Failure(IntegrityFault(m)), progressM, committedM)
    ensures res.Failure? && res.error.IntegrityFault? && res.error.processed <= m
  {
    var outs := RecordOutcomes(recs, parse);
    match res {
      case Success(n) =>
        AcceptedAt(outs, n / 50, m);
      case Failure(RecordFault(k, _)) =>
        CollectFaultAt(outs, |recs|);
        SucceedsBefore(outs, k, m);
        AcceptedAt(outs, k / 50, m);
      case Failure(IntegrityFault(p)) =>
        AcceptedAt(outs, (p - 1) / 50, m);
    }
  }

  /** Two runs refused at the same commit printed and committed the same. */
  lemma SameRefusal(recs: seq<VideoRecord>, parse: Parser, m: nat, progress1: seq<nat>, committed1: seq<Row>, progress2: seq<nat>, committed2: seq<Row>)
    requires Reported(recs, parse, Failure(IntegrityFault(m)), progress1, committed1)
    requires Reported(recs, parse, Failure(IntegrityFault(m)), progress2, committed2)
    ensures progress1 == progress2 && committed1 == committed2
  {
  }

  /**
   * A run without a refused commit reports what building all records gives:
   * success with every row, or the first record that fails with the batches
   * before it.
   */
  lemma ReportedOutcome(recs: seq<VideoRecord>, parse: Parser, res: Result<nat, IngestError>, progress: seq<nat>, committed: seq<Row>)
    requires Reported(recs, parse, res, progress, committed)
    requires !(res.Failure? && res.error.IntegrityFault?)
    ensures var all := BuildRows(recs, |recs|, parse);
      && (all.Success? ==> res == Success(|recs|) && committed == all.value && progress == ProgressPoints(|recs|))
      && (all.Failure? ==>
        && res == Failure(all.error) && all.error.RecordFault? && all.error.index < |recs|
        && BuildRows(recs, BatchStart(all.error.index), parse) == Success(committed)
        && progress == ProgressPoints(all.error.index))
  {
  }

  /**
   * The report and the committed rows depend on the records alone: any two
   * runs over the same records end alike, whatever the tables held before.
   */
  lemma ReportedUnique(recs: seq<VideoRecord>, parse: Parser,
                       res1: Result<nat, IngestError>, progress1: seq<nat>, committed1: seq<Row>,
                       res2: Result<nat, IngestError>, progress2: seq<nat>, committed2: seq<Row>)
    requires Reported(recs, parse, res1, progress1, committed1)
    requires Reported(recs, parse, res2, progress2, committed2)
    ensures res1 == res2 && progress1 == progress2 && committed1 == committed2
  {
    match res1 {
      case Failure(IntegrityFault(m1)) =>
        RefusedBound(recs, parse, res2, progress2, committed2, m1, progress1, committed1);
        var m2 := res2.error.processed;
        assert res2 == Failure(IntegrityFault(m2));
        RefusedBound(recs, parse, res1, progress1, committed1, m2, progress2, committed2);
        assert m1 == m2;
        assert res2 == Failure(IntegrityFault(m1));
        SameRefusal(recs, parse, m1, progress1, committed1, progress2, committed2);
      case _ =>
        if res2.Failure? && res2.error.IntegrityFault? {
          RefusedBound(recs, parse, res1, progress1, committed1, res2.error.processed, progress2, committed2);
        } else {
          ReportedOutcome(recs, parse, res1, progress1, committed1);
          ReportedOutcome(recs, parse, res2, progress2, committed2);
        }
    }
  }

  /**
   * `ingest_data` from the table reset onwards: the loop, then the final
   * commit of the rows after the last multiple of 50. `progress` holds the
   * numbers printed at each intermediate commit.
   */
  method IngestData(db: Database, doc: Document, parse: Parser) returns (res: Result<nat, IngestError>, progress: seq<nat>)
    modifies db
    ensures db.Valid() && db.pending == []
    ensures Reported(VideoRecords(doc), parse, res, progress, db.committed)
    ensures res.Success? ==> db.commits == res.value / 50 + 1
    ensures res.Success? ==> forall i :: 0 <= i < |VideoRecords(doc)| ==> RecordStored(db.Tables(), VideoRecords(doc)[i], parse)
    ensures res.Failure? && res.error.RecordFault? ==> db.commits == res.error.index / 50
    ensures res.Failure? && res.error.IntegrityFault? ==> db.commits == (res.error.processed - 1) / 50
    ensures doc.videos.None? ==> res == Success(0) && db.committed == []
  {
    db.RecreateTables();
    var recs := VideoRecords(doc);
    var err;
    ghost var batches;
    ghost var outs := RecordOutcomes(recs, parse);
    RecordOutcomesMatch(recs, parse);
    err, progress, batches := ImportAll(db, recs, outs, parse);
    if err.Some? {
      match err.value {
        case RecordFault(k, e) =>
          ReportRecordFault(recs, parse, batches, k, e, progress, db.committed);
        case IntegrityFault(m) =>
          ReportIntegrityFault(recs, parse, batches, m, progress, db.committed);
      }
      return Failure(err.value), progress;
    }
    var n := |recs|;
    BatchOf(batches, n);
    err := CommitRest(db, outs, n, batches);
    if err.Some? {
      BatchOf(batches, n - 1);
      ReportIntegrityFault(recs, parse, batches, n, progress, db.committed);
      return Failure(err.value), progress;
    }
    ReportSuccess(recs, parse, batches, progress, db.committed);
    AllStored(recs, parse, db.committed);
    res := Success(n);
  }
}
