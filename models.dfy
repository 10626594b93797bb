/**
 * The two tables of the metrics store, `videos` and `video_snapshots`, as
 * declared in bot/database/models.py: the rows, the defaults an insert
 * applies, the constraints the database enforces (primary keys, the foreign
 * key from a snapshot to its video, the BIGINT range of the counters) and the
 * cascade of the Video.snapshots relationship.
 */
module Models {
  import opened Wrappers

  /** A timezone-aware instant, `DateTime(timezone=True)`; its structure is never inspected. */
  type Timestamp(==)

  /** PostgreSQL BIGINT, the type of every counter column. */
  const BigIntMin: int := -0x8000_0000_0000_0000
  const BigIntMax: int := 0x7fff_ffff_ffff_ffff

  predicate FitsBigInt(x: int) {
    BigIntMin <= x <= BigIntMax
  }

  /** The four engagement counters a row carries (absolute totals, or deltas on a snapshot). */
  datatype Counters = Counters(views: int, likes: int, comments: int, reports: int)

  const Zero: Counters := Counters(0, 0, 0, 0)

  predicate CountersFit(c: Counters) {
    FitsBigInt(c.views) && FitsBigInt(c.likes) && FitsBigInt(c.comments) && FitsBigInt(c.reports)
  }

  /** Counter values passed to a row constructor; `None` is a keyword argument left out. */
  datatype CounterArgs = CounterArgs(views: Option<int>, likes: Option<int>, comments: Option<int>, reports: Option<int>)

  const Omitted: CounterArgs := CounterArgs(None, None, None, None)

  /**
   * A row of `videos`. The non-nullable columns (`id`, `creator_id`,
   * `video_created_at`) and `created_at`, which the server fills in, are plain
   * fields; `updated_at` is nullable.
   */
  datatype Video = Video(
    id: string,
    creatorId: string,
    videoCreatedAt: Timestamp,
    counts: Counters,
    createdAt: Timestamp,
    updatedAt: Option<Timestamp>)

  /** A row of `video_snapshots`: absolute counters, delta counters and the observation time. */
  datatype Snapshot = Snapshot(
    id: string,
    videoId: string,
    counts: Counters,
    deltas: Counters,
    createdAt: Timestamp,
    updatedAt: Option<Timestamp>)

  /** The counters an insert stores: each omitted counter takes its column default, 0. */
  function WithDefaults(args: CounterArgs): (c: Counters)
    ensures args == Omitted ==> c == Zero
    ensures args.views.None? ==> c.views == 0
    ensures args.likes.None? ==> c.likes == 0
    ensures args.comments.None? ==> c.comments == 0
    ensures args.reports.None? ==> c.reports == 0
    ensures args.views.Some? ==> c.views == args.views.value
    ensures args.likes.Some? ==> c.likes == args.likes.value
    ensures args.comments.Some? ==> c.comments == args.comments.value
    ensures args.reports.Some? ==> c.reports == args.reports.value
  {
    Counters(args.views.GetOr(0), args.likes.GetOr(0), args.comments.GetOr(0), args.reports.GetOr(0))
  }

  /**
   * The `videos` row that inserting a `Video(...)` produces at time `now`:
   * omitted counters default to 0 and an omitted `created_at` gets the
   * insertion time (`server_default=func.now()`).
   */
  function NewVideo(
    id: string, creatorId: string, videoCreatedAt: Timestamp, counts: CounterArgs,
    createdAt: Option<Timestamp>, updatedAt: Option<Timestamp>, now: Timestamp): (v: Video)
    ensures v.id == id && v.creatorId == creatorId && v.videoCreatedAt == videoCreatedAt
    ensures v.counts == WithDefaults(counts)
    ensures counts == Omitted ==> v.counts == Zero
    ensures createdAt.None? ==> v.createdAt == now
    ensures createdAt.Some? ==> v.createdAt == createdAt.value
    ensures v.updatedAt == updatedAt
  {
    Video(id, creatorId, videoCreatedAt, WithDefaults(counts), createdAt.GetOr(now), updatedAt)
  }

  /** The `video_snapshots` row that inserting a `VideoSnapshot(...)` produces. */
  function NewSnapshot(
    id: string, videoId: string, counts: CounterArgs, deltas: CounterArgs,
    createdAt: Timestamp, updatedAt: Option<Timestamp>): (s: Snapshot)
    ensures s.id == id && s.videoId == videoId && s.createdAt == createdAt && s.updatedAt == updatedAt
    ensures s.counts == WithDefaults(counts) && s.deltas == WithDefaults(deltas)
    ensures counts == Omitted ==> s.counts == Zero
    ensures deltas == Omitted ==> s.deltas == Zero
  {
    Snapshot(id, videoId, WithDefaults(counts), WithDefaults(deltas), createdAt, updatedAt)
  }

  /** Both tables, each keyed by its primary key, so that at most one row per id exists. */
  datatype Store = Store(videos: map<string, Video>, snapshots: map<string, Snapshot>)

  const Empty: Store := Store(map[], map[])

  /**
   * What the column declarations make the database enforce: every row sits
   * under its own primary key, every snapshot's `video_id` names a stored
   * video, and every counter fits in a BIGINT.
   */
  predicate Valid(s: Store) {
    && (forall k :: k in s.videos ==> s.videos[k].id == k)
    && (forall k :: k in s.snapshots ==> s.snapshots[k].id == k)
    && (forall k :: k in s.snapshots ==> s.snapshots[k].videoId in s.videos)
    && (forall k :: k in s.videos ==> CountersFit(s.videos[k].counts))
    && (forall k :: k in s.snapshots ==> CountersFit(s.snapshots[k].counts) && CountersFit(s.snapshots[k].deltas))
  }

  /** `Video.snapshots`: the snapshots whose `video_id` is the video's id. */
  function SnapshotsOf(s: Store, videoId: string): (r: map<string, Snapshot>)
    ensures forall k :: k in r <==> k in s.snapshots && s.snapshots[k].videoId == videoId
    ensures forall k :: k in r ==> r[k] == s.snapshots[k]
  {
    map k | k in s.snapshots && s.snapshots[k].videoId == videoId :: s.snapshots[k]
  }

  /**
   * In a valid store the relationship partitions the snapshots: each one is in
   * the collection of exactly one stored video.
   */
  lemma SnapshotsPartition(s: Store, k: string)
    requires Valid(s) && k in s.snapshots
    ensures s.snapshots[k].videoId in s.videos
    ensures k in SnapshotsOf(s, s.snapshots[k].videoId)
    ensures forall v :: v in s.videos && k in SnapshotsOf(s, v) ==> v == s.snapshots[k].videoId
  {
  }

  /**
   * Deleting a video (`cascade="all, ..."`): the video and every snapshot in
   * its collection go, all other rows stay.
   */
  function DeleteVideo(s: Store, id: string): (r: Store)
    ensures r.videos == s.videos - {id}
    ensures r.snapshots.Keys == s.snapshots.Keys - SnapshotsOf(s, id).Keys
    ensures forall k :: k in r.snapshots ==> r.snapshots[k] == s.snapshots[k]
    ensures Valid(s) ==> Valid(r)
  {
    Store(s.videos - {id}, map k | k in s.snapshots && s.snapshots[k].videoId != id :: s.snapshots[k])
  }

  /** After the cascade nothing refers to the deleted video any more. */
  lemma DeleteVideoLeavesNoOrphans(s: Store, id: string)
    requires Valid(s)
    ensures SnapshotsOf(DeleteVideo(s, id), id) == map[]
    ensures forall v :: v != id ==> SnapshotsOf(DeleteVideo(s, id), v) == SnapshotsOf(s, v)
  {
    var r := DeleteVideo(s, id);
    assert SnapshotsOf(r, id).Keys == {};
    forall v | v != id
      ensures SnapshotsOf(r, v) == SnapshotsOf(s, v)
    {
      assert SnapshotsOf(r, v).Keys == SnapshotsOf(s, v).Keys;
    }
  }

  /**
   * Removing a snapshot from its video's collection (`delete-orphan`): the
   * orphaned snapshot is deleted; a snapshot not in that collection is left.
   */
  function RemoveFromCollection(s: Store, videoId: string, snapshotId: string): (r: Store)
    ensures r.videos == s.videos
    ensures snapshotId in SnapshotsOf(s, videoId) ==> r.snapshots == s.snapshots - {snapshotId}
    ensures snapshotId !in SnapshotsOf(s, videoId) ==> r == s
    ensures SnapshotsOf(r, videoId).Keys == SnapshotsOf(s, videoId).Keys - {snapshotId}
    ensures Valid(s) ==> Valid(r)
  {
    if snapshotId in SnapshotsOf(s, videoId) then s.(snapshots := s.snapshots - {snapshotId}) else s
  }

  /** A row handed to the database, in either table. */
  datatype Row = VideoRow(video: Video) | SnapshotRow(snapshot: Snapshot)

  function VideoIds(rows: seq<Row>): set<string> {
    set r | r in rows && r.VideoRow? :: r.video.id
  }

  function SnapshotIds(rows: seq<Row>): set<string> {
    set r | r in rows && r.SnapshotRow? :: r.snapshot.id
  }

  predicate RowFits(r: Row) {
    match r
    case VideoRow(v) => CountersFit(v.counts)
    case SnapshotRow(n) => CountersFit(n.counts) && CountersFit(n.deltas)
  }

  /**
   * The rows the database accepts as the contents of its tables: no primary
   * key twice in a table, every snapshot's `video_id` among the videos, every
   * counter in BIGINT range.
   */
  predicate Consistent(rows: seq<Row>) {
    && (forall i, j :: 0 <= i < j < |rows| && rows[i].VideoRow? && rows[j].VideoRow? ==> rows[i].video.id != rows[j].video.id)
    && (forall i, j :: 0 <= i < j < |rows| && rows[i].SnapshotRow? && rows[j].SnapshotRow? ==> rows[i].snapshot.id != rows[j].snapshot.id)
    && (forall i :: 0 <= i < |rows| && rows[i].SnapshotRow? ==> rows[i].snapshot.videoId in VideoIds(rows))
    && (forall i :: 0 <= i < |rows| ==> RowFits(rows[i]))
  }

  /** The tables after inserting `rows` one by one into empty tables. */
  function Load(rows: seq<Row>): Store
    decreases |rows|
  {
    if rows == [] then Empty
    else
      var s := Load(rows[..|rows| - 1]);
      match rows[|rows| - 1]
      case VideoRow(v) => s.(videos := s.videos[v.id := v])
      case SnapshotRow(n) => s.(snapshots := s.snapshots[n.id := n])
  }

  /** Loading keys every row by its id and stores nothing that was not inserted. */
  lemma {:induction false} LoadKeys(rows: seq<Row>)
    ensures Load(rows).videos.Keys == VideoIds(rows)
    ensures Load(rows).snapshots.Keys == SnapshotIds(rows)
    ensures forall k :: k in Load(rows).videos ==> Load(rows).videos[k].id == k && VideoRow(Load(rows).videos[k]) in rows
    ensures forall k :: k in Load(rows).snapshots ==> Load(rows).snapshots[k].id == k && SnapshotRow(Load(rows).snapshots[k]) in rows
    decreases |rows|
  {
    if rows != [] {
      var init := rows[..|rows| - 1];
      LoadKeys(init);
      assert rows == init + [rows[|rows| - 1]];
      assert VideoIds(rows) == VideoIds(init) + VideoIds([rows[|rows| - 1]]);
      assert SnapshotIds(rows) == SnapshotIds(init) + SnapshotIds([rows[|rows| - 1]]);
    }
  }

  /**
   * Tables loaded from consistent rows are valid and hold exactly those rows:
   * each video and snapshot row is stored, unchanged, under its own id.
   */
  lemma LoadConsistent(rows: seq<Row>)
    requires Consistent(rows)
    ensures Valid(Load(rows))
    ensures Load(rows).videos.Keys == VideoIds(rows)
    ensures Load(rows).snapshots.Keys == SnapshotIds(rows)
    ensures forall r :: r in rows && r.VideoRow? ==> Load(rows).videos[r.video.id] == r.video
    ensures forall r :: r in rows && r.SnapshotRow? ==> Load(rows).snapshots[r.snapshot.id] == r.snapshot
  {
    var s := Load(rows);
    LoadKeys(rows);
    forall r | r in rows && r.VideoRow?
      ensures s.videos[r.video.id] == r.video
    {
      var k := r.video.id;
      var i :| 0 <= i < |rows| && rows[i] == r;
      var j :| 0 <= j < |rows| && rows[j] == VideoRow(s.videos[k]);
      assert i == j;
    }
    forall r | r in rows && r.SnapshotRow?
      ensures s.snapshots[r.snapshot.id] == r.snapshot
    {
      var k := r.snapshot.id;
      var i :| 0 <= i < |rows| && rows[i] == r;
      var j :| 0 <= j < |rows| && rows[j] == SnapshotRow(s.snapshots[k]);
      assert i == j;
    }
    forall k | k in s.snapshots
      ensures s.snapshots[k].videoId in s.videos && CountersFit(s.snapshots[k].counts) && CountersFit(s.snapshots[k].deltas)
    {
      var j :| 0 <= j < |rows| && rows[j] == SnapshotRow(s.snapshots[k]);
      assert RowFits(rows[j]);
    }
    forall k | k in s.videos
      ensures CountersFit(s.videos[k].counts)
    {
      var j :| 0 <= j < |rows| && rows[j] == VideoRow(s.videos[k]);
      assert RowFits(rows[j]);
    }
  }
}
