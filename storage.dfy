/** The storage layer: a PostgreSQL adapter, a JSON-file adapter and the manager
    that prefers the database and falls back to the files.

    The environment is part of the state: whether `POSTGRES_URL` is set, whether
    the driver can be imported and whether the tables can be created are constants
    of the database adapter, and whether the data directory accepts writes is a
    constant of the file adapter. A database call takes `answered`, the number of
    queries the server answers before one of them fails. */
module Storage {
  import opened Common
  import opened Records
  import Seqs

  const NotAvailable := "Database not available"
  const QueryFailed := "query failed"

  // ---------------------------------------------------------------------------
  // Rows of the `comments` table

  /** A row of the `comments` table: `parent_id` may be NULL, `author_liked` is a
      boolean; there is no column for nested replies. */
  datatype Row = Row(
    id: string,
    author: string,
    content: string,
    date: int,
    contentType: string,
    contentId: string,
    parentId: Option<string>,
    authorLiked: bool)

  /** The values `saveComments` inserts: `parentId || null` and `authorLiked || false`. */
  function ToRow(c: Comment): Row {
    Row(c.id, c.author, c.content, c.date, c.contentType, c.contentId,
        if Truthy(c.parentId) then c.parentId else None,
        c.authorLiked == Some(true))
  }

  /** The record `getComments` builds from a row. */
  function FromRow(r: Row): Comment {
    Comment(r.id, r.author, r.content, r.date, r.contentType, r.contentId,
            r.parentId, Some(r.authorLiked), None)
  }

  /** A record that survives a trip through the table unchanged. */
  predicate Storable(c: Comment) {
    c.replies == None && c.authorLiked.Some? && (c.parentId.Some? ==> c.parentId.value != "")
  }

  /** Writing a comment into the table and reading it back gives the comment back
      exactly when it has no nested replies, an explicit like flag and no empty
      parent id; in every case the id, the text, the date and the place are kept. */
  lemma RowRoundTrip(c: Comment)
    ensures FromRow(ToRow(c)) == c <==> Storable(c)
    ensures var d := FromRow(ToRow(c));
      d.id == c.id && d.author == c.author && d.content == c.content && d.date == c.date &&
      d.contentType == c.contentType && d.contentId == c.contentId &&
      d.replies == None && (Truthy(d.parentId) <==> Truthy(c.parentId))
  {
    var d := FromRow(ToRow(c));
    if Storable(c) {
      assert d.parentId == c.parentId;
      if c.authorLiked.value {
        assert d.authorLiked == Some(true);
      } else {
        assert d.authorLiked == Some(false);
      }
    }
  }

  function RowsOf(cs: seq<Comment>): (rs: seq<Row>)
    ensures |rs| == |cs| && forall i :: 0 <= i < |cs| ==> rs[i] == ToRow(cs[i])
  {
    seq(|cs|, i requires 0 <= i < |cs| => ToRow(cs[i]))
  }

  function RecordsOf(rs: seq<Row>): (cs: seq<Comment>)
    ensures |cs| == |rs| && forall i :: 0 <= i < |rs| ==> cs[i] == FromRow(rs[i])
  {
    seq(|rs|, i requires 0 <= i < |rs| => FromRow(rs[i]))
  }

  /** The records `getComments` returns for the stored rows, newest first; rows of
      equal date come in an order the model fixes but the database does not. */
  function DbListing(rows: seq<Row>): (cs: seq<Comment>)
    ensures multiset(cs) == multiset(RecordsOf(rows))
    ensures Seqs.SortedBy(cs, NewestFirst)
  {
    Seqs.SortBy(RecordsOf(rows), NewestFirst)
  }

  /** Saving storable comments to the table and reading them back gives the same
      comments, newest first. */
  lemma DbRoundTrip(cs: seq<Comment>)
    requires forall i :: 0 <= i < |cs| ==> Storable(cs[i])
    ensures RecordsOf(RowsOf(cs)) == cs
    ensures multiset(DbListing(RowsOf(cs))) == multiset(cs)
  {
    forall i | 0 <= i < |cs|
      ensures RecordsOf(RowsOf(cs))[i] == cs[i]
    {
      RowRoundTrip(cs[i]);
    }
  }

  /** Nested replies never survive the table: every record read back has none. */
  lemma DbDropsNestedReplies(cs: seq<Comment>)
    ensures forall c :: c in DbListing(RowsOf(cs)) ==> c.replies == None
  {
    Seqs.SameMembers(DbListing(RowsOf(cs)), RecordsOf(RowsOf(cs)));
  }

  /** Some row carries the given primary key. */
  predicate HasId(rs: seq<Row>, id: string) {
    exists i | 0 <= i < |rs| :: rs[i].id == id
  }

  /** No two comments share an id. */
  predicate UniqueIds(cs: seq<Comment>) {
    forall i, j :: 0 <= i < j < |cs| ==> cs[i].id != cs[j].id
  }

  /** How many comments a save that got `answered` answers (the `DELETE` among
      them) inserts: one per answer after the delete, stopped by the first repeated
      id. */
  function InsertedCount(cs: seq<Comment>, answered: nat): (k: nat)
    requires answered > 0
    ensures k <= |cs| && k < answered && k <= DistinctPrefix(cs)
    ensures k == DistinctPrefix(cs) || k == answered - 1
  {
    if answered - 1 < DistinctPrefix(cs) then answered - 1 else DistinctPrefix(cs)
  }

  /** The length of the longest prefix of `cs` whose ids are pairwise distinct:
      inserting `cs` row by row into an empty table succeeds for exactly this many
      rows before the primary key rejects one. */
  function DistinctPrefix(cs: seq<Comment>): (k: nat)
    ensures k <= |cs|
    ensures UniqueIds(cs[..k])
    ensures k < |cs| ==> exists j | 0 <= j < k :: cs[j].id == cs[k].id
  {
    if cs == [] then 0
    else
      var init := cs[..|cs| - 1];
      var k := DistinctPrefix(init);
      assert init[..k] == cs[..k];
      if k < |init| then
        k
      else if exists j | 0 <= j < |init| :: init[j].id == cs[|init|].id then
        |init|
      else
        assert cs[..|cs|] == cs;
        |cs|
  }

  /** A repeated id at `i` ends the distinct prefix there. */
  lemma DuplicateEndsPrefix(cs: seq<Comment>, i: nat, j: nat)
    requires i < |cs| && i <= DistinctPrefix(cs) && j < i && cs[j].id == cs[i].id
    ensures i == DistinctPrefix(cs)
  {
    var p := cs[..DistinctPrefix(cs)];
    assert forall a :: 0 <= a < |p| ==> p[a] == cs[a];
  }

  /** A new id at `i` extends the distinct prefix past `i`. */
  lemma FreshExtendsPrefix(cs: seq<Comment>, i: nat)
    requires i < |cs| && i <= DistinctPrefix(cs)
    requires forall j :: 0 <= j < i ==> cs[j].id != cs[i].id
    ensures i < DistinctPrefix(cs)
  {
  }

  /** All ids are distinct exactly when the whole list is the distinct prefix. */
  /** The next insert fails exactly when it ends the distinct prefix; otherwise
      it adds that comment's row to the rows of the prefix. */
  lemma InsertNext(cs: seq<Comment>, i: nat)
    requires i < |cs| && i <= DistinctPrefix(cs)
    ensures HasId(RowsOf(cs[..i]), cs[i].id) <==> i == DistinctPrefix(cs)
    ensures i < DistinctPrefix(cs) ==> RowsOf(cs[..i]) + [ToRow(cs[i])] == RowsOf(cs[..i + 1])
  {
    var rs := RowsOf(cs[..i]);
    if HasId(rs, cs[i].id) {
      var j :| 0 <= j < |rs| && rs[j].id == cs[i].id;
      assert cs[..i][j] == cs[j];
      DuplicateEndsPrefix(cs, i, j);
    } else {
      forall j | 0 <= j < i ensures cs[j].id != cs[i].id {
        assert rs[j] == ToRow(cs[..i][j]);
      }
      FreshExtendsPrefix(cs, i);
      RowsOfStep(cs, i);
    }
  }

  /** The rows of one more comment are the rows so far and its row. */
  lemma RowsOfStep(cs: seq<Comment>, i: nat)
    requires i < |cs|
    ensures RowsOf(cs[..i]) + [ToRow(cs[i])] == RowsOf(cs[..i + 1])
  {
    var a := RowsOf(cs[..i]) + [ToRow(cs[i])];
    var b := RowsOf(cs[..i + 1]);
    forall k | 0 <= k < |b| ensures a[k] == b[k] {
      if k < i { assert cs[..i + 1][k] == cs[..i][k]; }
    }
  }

  lemma UniqueIdsPrefix(cs: seq<Comment>)
    ensures UniqueIds(cs) <==> DistinctPrefix(cs) == |cs|
  {
    assert cs[..|cs|] == cs;
  }

  // ---------------------------------------------------------------------------
  // The `likes` table

  /** `table` after the upserts of the keys in `keys`, each to its count in `likes`. */
  function Upsert(table: map<string, int>, likes: map<string, int>, keys: set<string>): (r: map<string, int>)
    requires keys <= likes.Keys
  {
    table + map k | k in keys :: likes[k]
  }

  /** After the upserts, the upserted keys hold their new counts and every other
      row is as it was. */
  lemma UpsertMeaning(table: map<string, int>, likes: map<string, int>, keys: set<string>)
    requires keys <= likes.Keys
    ensures var r := Upsert(table, likes, keys);
      r.Keys == table.Keys + keys &&
      (forall k :: k in keys ==> r[k] == likes[k]) &&
      (forall k :: k in table && k !in keys ==> r[k] == table[k])
  {
  }

  lemma UpsertStep(table: map<string, int>, likes: map<string, int>, keys: set<string>, key: string)
    requires keys <= likes.Keys && key in likes && key !in keys
    ensures Upsert(table, likes, keys)[key := likes[key]] == Upsert(table, likes, keys + {key})
    ensures |keys + {key}| == |keys| + 1
  {
    var m1 := map k | k in keys :: likes[k];
    var m2 := map k | k in keys + {key} :: likes[k];
    assert m2 == m1[key := likes[key]] by {
      assert m2.Keys == m1.Keys + {key};
    }
    MergeUpdate(table, m1, key, likes[key]);
  }

  /** Updating a merged map is merging the updated right-hand side. */
  lemma MergeUpdate(table: map<string, int>, m: map<string, int>, key: string, v: int)
    ensures (table + m)[key := v] == table + m[key := v]
  {
  }

  /** `order` lists the keys of `likes` once each, in the order `Object.entries`
      gives them. */
  predicate EntryOrder(likes: map<string, int>, order: seq<string>) {
    |order| == |likes| &&
    (forall k :: k in likes ==> k in order) &&
    (forall i :: 0 <= i < |order| ==> order[i] in likes) &&
    (forall i, j :: 0 <= i < j < |order| ==> order[i] != order[j])
  }

  /** The keys of the first `n` entries. */
  function FirstKeys(order: seq<string>, n: nat): (keys: set<string>)
    requires n <= |order|
    ensures forall k :: k in keys <==> exists i :: 0 <= i < n && order[i] == k
  {
    set k | k in order[..n]
  }

  /** One more entry adds its key, which the earlier entries do not have. */
  lemma FirstKeysStep(order: seq<string>, i: nat)
    requires i < |order| && forall a, b :: 0 <= a < b < |order| ==> order[a] != order[b]
    ensures order[i] !in FirstKeys(order, i)
    ensures FirstKeys(order, i + 1) == FirstKeys(order, i) + {order[i]}
  {
    assert order[..i + 1] == order[..i] + [order[i]];
  }

  /** Upserting the next entry extends the upserted prefix by one entry. */
  lemma UpsertNext(table: map<string, int>, likes: map<string, int>, order: seq<string>, i: nat)
    requires EntryOrder(likes, order) && i < |order|
    ensures FirstKeys(order, i + 1) <= likes.Keys && order[i] in likes
    ensures Upsert(table, likes, FirstKeys(order, i))[order[i] := likes[order[i]]] ==
      Upsert(table, likes, FirstKeys(order, i + 1))
  {
    FirstKeysStep(order, i);
    FirstKeysWithin(likes, order, i);
    FirstKeysWithin(likes, order, i + 1);
    UpsertStep(table, likes, FirstKeys(order, i), order[i]);
  }

  /** The entries' keys are keys of `likes`, and all of them once every entry is taken. */
  lemma FirstKeysWithin(likes: map<string, int>, order: seq<string>, n: nat)
    requires EntryOrder(likes, order) && n <= |order|
    ensures FirstKeys(order, n) <= likes.Keys
    ensures n == |order| ==> FirstKeys(order, n) == likes.Keys
  {
    if n == |order| {
      assert order[..n] == order;
    }
  }

  // ---------------------------------------------------------------------------
  // The file adapter

  class FileSystemStorage {
    var likesFile: JsonFile<map<string, int>>
    var commentsFile: JsonFile<seq<Comment>>
    /** Whether the data directory accepts writes. */
    const writable: bool

    constructor (likesFile: JsonFile<map<string, int>>, commentsFile: JsonFile<seq<Comment>>, writable: bool)
      ensures this.likesFile == likesFile && this.commentsFile == commentsFile && this.writable == writable
    {
      this.likesFile := likesFile;
      this.commentsFile := commentsFile;
      this.writable := writable;
    }

    /** The file system is always reported available. */
    method IsAvailable() returns (available: bool)
      ensures available
    {
      available := true;
    }

    /** The stored counts; an empty map when the file is missing or unreadable. */
    method GetLikes() returns (likes: map<string, int>)
      ensures likesFile.Stored? ==> likes == likesFile.value
      ensures !likesFile.Stored? ==> likes == map[]
    {
      likes := ReadOr(likesFile, map[]);
    }

    /** Overwrites the likes file; a failed write is thrown to the caller. */
    method SaveLikes(likes: map<string, int>) returns (result: Outcome)
      modifies this`likesFile
      ensures result == Done <==> writable
      ensures likesFile == if writable then Stored(likes) else old(likesFile)
    {
      if writable {
        likesFile := Stored(likes);
        result := Done;
      } else {
        result := Threw(WriteFailed);
      }
    }

    /** The stored comments; an empty list when the file is missing or unreadable. */
    method GetComments() returns (comments: seq<Comment>)
      ensures commentsFile.Stored? ==> comments == commentsFile.value
      ensures !commentsFile.Stored? ==> comments == []
    {
      comments := ReadOr(commentsFile, []);
    }

    /** Overwrites the comments file; a failed write is thrown to the caller. */
    method SaveComments(comments: seq<Comment>) returns (result: Outcome)
      modifies this`commentsFile
      ensures result == Done <==> writable
      ensures commentsFile == if writable then Stored(comments) else old(commentsFile)
    {
      if writable {
        commentsFile := Stored(comments);
        result := Done;
      } else {
        result := Threw(WriteFailed);
      }
    }
  }

  // ---------------------------------------------------------------------------
  // The database adapter

  class DatabaseStorage {
    /** `POSTGRES_URL` is set. */
    const postgresUrl: bool
    /** Importing the PostgreSQL driver succeeds. */
    const driverInstalled: bool
    /** Both `CREATE TABLE IF NOT EXISTS` statements succeed. */
    const schemaCreatable: bool

    /** `db !== null`: the driver has been bound. */
    var db: bool
    var initialized: bool
    /** `initPromise !== null`: the initialisation has started. */
    var initStarted: bool
    /** How often the body of the initialisation has run. */
    ghost var initRuns: nat

    var likesTable: map<string, int>
    var commentsTable: seq<Row>

    /** The database comes up in this environment. */
    predicate Reachable() {
      postgresUrl && driverInstalled && schemaCreatable
    }

    /** The initialisation runs at most once, and once it has run the flags are
        fixed by the environment: a failed initialisation is never retried. */
    ghost predicate Valid()
      reads this
    {
      initRuns == (if initStarted then 1 else 0) &&
      (!initStarted ==> !db && !initialized) &&
      (initStarted ==> db == (postgresUrl && driverInstalled) && initialized == Reachable())
    }

    constructor (postgresUrl: bool, driverInstalled: bool, schemaCreatable: bool,
                 likesTable: map<string, int>, commentsTable: seq<Row>)
      ensures Valid() && !initStarted
      ensures this.postgresUrl == postgresUrl && this.driverInstalled == driverInstalled
      ensures this.schemaCreatable == schemaCreatable
      ensures this.likesTable == likesTable && this.commentsTable == commentsTable
    {
      this.postgresUrl := postgresUrl;
      this.driverInstalled := driverInstalled;
      this.schemaCreatable := schemaCreatable;
      this.likesTable := likesTable;
      this.commentsTable := commentsTable;
      db := false;
      initialized := false;
      initStarted := false;
      initRuns := 0;
    }

    /** Memoised initialisation: the first call binds the driver and creates the
        tables, catching every failure; later calls return the same promise.
        (The `initialized` test inside the body can only be reached on the first
        run, when it is false, so it is not repeated here.) */
    method Initialize()
      requires Valid()
      modifies this`db, this`initialized, this`initStarted, this`initRuns
      ensures Valid() && initStarted
      ensures old(initStarted) ==> db == old(db) && initialized == old(initialized) && initRuns == old(initRuns)
    {
      if initStarted {
        return;
      }
      initStarted := true;
      initRuns := initRuns + 1;
      if postgresUrl {
        if driverInstalled {
          db := true;
          initialized := schemaCreatable;
        } else {
          initialized := false;
        }
      } else {
        initialized := false;
      }
    }

    method IsAvailable() returns (available: bool)
      requires Valid()
      modifies this`db, this`initialized, this`initStarted, this`initRuns
      ensures Valid() && initStarted
      ensures available == Reachable()
    {
      Initialize();
      available := initialized && db && postgresUrl;
    }

    /** `SELECT key, count FROM likes`, folded into a map. */
    method GetLikes(answered: nat) returns (result: Result<map<string, int>>)
      requires Valid()
      modifies this`db, this`initialized, this`initStarted, this`initRuns
      ensures Valid() && initStarted
      ensures !Reachable() ==> result == Err(NotAvailable)
      ensures Reachable() ==> result == if answered == 0 then Err(QueryFailed) else Ok(likesTable)
    {
      var available := IsAvailable();
      if !available {
        return Err(NotAvailable);
      }
      if answered == 0 {
        return Err(QueryFailed);
      }
      result := Ok(likesTable);
    }

    /** One upsert per entry of `likes`, in the order `order` of its entries; keys
        not in `likes` keep their rows. A failed upsert is thrown and the upserts
        of the entries before it stay applied. */
    method SaveLikes(likes: map<string, int>, order: seq<string>, answered: nat) returns (result: Outcome)
      requires Valid() && EntryOrder(likes, order)
      modifies this`db, this`initialized, this`initStarted, this`initRuns, this`likesTable
      ensures Valid() && initStarted
      ensures !Reachable() ==> result == Threw(NotAvailable) && likesTable == old(likesTable)
      ensures result == Done <==> Reachable() && answered >= |likes|
      ensures result == Done ==> likesTable == Upsert(old(likesTable), likes, likes.Keys)
      ensures Reachable() && answered < |likes| ==>
        likesTable == Upsert(old(likesTable), likes, FirstKeys(order, answered))
    {
      var available := IsAvailable();
      if !available {
        return Threw(NotAvailable);
      }
      result := UpsertEach(likes, order, answered);
    }

    /** The `for` loop of `saveLikes`: one upsert per entry, in entry order, stopped
        by the first query the server does not answer. */
    method UpsertEach(likes: map<string, int>, order: seq<string>, answered: nat) returns (result: Outcome)
      requires EntryOrder(likes, order)
      modifies this`likesTable
      ensures result == Done <==> answered >= |likes|
      ensures result == Done ==> likesTable == Upsert(old(likesTable), likes, likes.Keys)
      ensures answered < |likes| ==>
        result == Threw(QueryFailed) && likesTable == Upsert(old(likesTable), likes, FirstKeys(order, answered))
    {
      ghost var start := likesTable;
      var i := 0;
      FirstKeysWithin(likes, order, 0);
      while i < |order|
        invariant 0 <= i <= |order| == |likes| && i <= answered
        invariant FirstKeys(order, i) <= likes.Keys
        invariant likesTable == Upsert(start, likes, FirstKeys(order, i))
        modifies this`likesTable
      {
        if i == answered {
          return Threw(QueryFailed);
        }
        var key := order[i];
        UpsertNext(start, likes, order, i);
        likesTable := likesTable[key := likes[key]];
        i := i + 1;
      }
      FirstKeysWithin(likes, order, |order|);
      result := Done;
    }

    /** `SELECT ... FROM comments ORDER BY date DESC`. */
    method GetComments(answered: nat) returns (result: Result<seq<Comment>>)
      requires Valid()
      modifies this`db, this`initialized, this`initStarted, this`initRuns
      ensures Valid() && initStarted
      ensures !Reachable() ==> result == Err(NotAvailable)
      ensures Reachable() && answered == 0 ==> result == Err(QueryFailed)
      ensures Reachable() && answered > 0 ==> result == Ok(DbListing(commentsTable))
    {
      var available := IsAvailable();
      if !available {
        return Err(NotAvailable);
      }
      if answered == 0 {
        return Err(QueryFailed);
      }
      result := Ok(DbListing(commentsTable));
    }

    /** `DELETE FROM comments`, then one `INSERT` per comment in order. The first
        failure is thrown: a failed delete leaves the table as it was, a failed
        insert (an id already inserted, or the server giving up) leaves the rows
        inserted before it. */
    method SaveComments(comments: seq<Comment>, answered: nat) returns (result: Outcome)
      requires Valid()
      modifies this`db, this`initialized, this`initStarted, this`initRuns, this`commentsTable
      ensures Valid() && initStarted
      ensures !Reachable() ==> result == Threw(NotAvailable)
      ensures !Reachable() || answered == 0 ==> commentsTable == old(commentsTable)
      ensures result == Done <==> Reachable() && answered > |comments| && UniqueIds(comments)
      ensures Reachable() && answered > 0 ==> commentsTable == RowsOf(comments[..InsertedCount(comments, answered)])
    {
      var available := IsAvailable();
      if !available {
        return Threw(NotAvailable);
      }
      if answered == 0 {
        return Threw(QueryFailed);
      }
      result := InsertEach(comments, answered);
    }

    /** The table emptied by the answered `DELETE`, then the `for` loop of
        `saveComments`: one `INSERT` per comment, stopped by the first query that
        fails. */
    method InsertEach(comments: seq<Comment>, answered: nat) returns (result: Outcome)
      requires answered > 0
      modifies this`commentsTable
      ensures result == Done <==> answered > |comments| && UniqueIds(comments)
      ensures result != Done ==> result == Threw(QueryFailed)
      ensures commentsTable == RowsOf(comments[..InsertedCount(comments, answered)])
    {
      UniqueIdsPrefix(comments);
      var d := DistinctPrefix(comments);
      commentsTable := [];
      var i := 0;
      while i < |comments|
        invariant i <= |comments| && i < answered && i <= d
        invariant commentsTable == RowsOf(comments[..i])
        modifies this`commentsTable
      {
        if i + 1 >= answered {
          assert i == answered - 1 && i <= d;
          return Threw(QueryFailed);
        }
        InsertNext(comments, i);
        if HasId(commentsTable, comments[i].id) {
          return Threw(QueryFailed);
        }
        commentsTable := commentsTable + [ToRow(comments[i])];
        i := i + 1;
      }
      assert comments[..i] == comments;
      result := Done;
    }
  }

  // ---------------------------------------------------------------------------
  // The manager

  class StorageManager {
    const dbStorage: DatabaseStorage
    const fileStorage: FileSystemStorage
    var useDatabase: bool

    ghost predicate Valid()
      reads this, dbStorage
    {
      dbStorage.Valid() && (useDatabase ==> dbStorage.Reachable())
    }

    constructor (dbStorage: DatabaseStorage, fileStorage: FileSystemStorage)
      requires dbStorage.Valid()
      ensures Valid() && this.dbStorage == dbStorage && this.fileStorage == fileStorage && !useDatabase
    {
      this.dbStorage := dbStorage;
      this.fileStorage := fileStorage;
      useDatabase := false;
    }

    method CheckDatabase() returns (available: bool)
      requires Valid()
      modifies this`useDatabase, dbStorage`db, dbStorage`initialized, dbStorage`initStarted, dbStorage`initRuns
      ensures Valid() && dbStorage.initStarted
      ensures available == dbStorage.Reachable() && useDatabase == available
    {
      available := dbStorage.IsAvailable();
      useDatabase := available;
    }

    /** The database counts when the database is up and answers, the file's otherwise. */
    method GetLikes(answered: nat) returns (likes: map<string, int>)
      requires Valid()
      modifies this`useDatabase, dbStorage`db, dbStorage`initialized, dbStorage`initStarted, dbStorage`initRuns
      ensures Valid() && dbStorage.initStarted
      ensures dbStorage.Reachable() && answered > 0 ==> likes == dbStorage.likesTable
      ensures !(dbStorage.Reachable() && answered > 0) ==> likes == ReadOr(fileStorage.likesFile, map[])
    {
      var useDb := CheckDatabase();
      if useDb {
        var r := dbStorage.GetLikes(answered);
        if r.Ok? {
          return r.value;
        }
      }
      likes := fileStorage.GetLikes();
    }

    /** Writes to the database; the file is written only when the database is down
        or a query fails, and then it receives the whole map. Only a failure of the
        file write reaches the caller. */
    method SaveLikes(likes: map<string, int>, order: seq<string>, answered: nat) returns (result: Outcome)
      requires Valid() && EntryOrder(likes, order)
      modifies this`useDatabase, dbStorage`db, dbStorage`initialized, dbStorage`initStarted, dbStorage`initRuns
      modifies dbStorage`likesTable, fileStorage`likesFile
      ensures Valid() && dbStorage.initStarted
      ensures dbStorage.Reachable() && answered >= |likes| ==>
        result == Done && fileStorage.likesFile == old(fileStorage.likesFile) &&
        dbStorage.likesTable == Upsert(old(dbStorage.likesTable), likes, likes.Keys)
      ensures !(dbStorage.Reachable() && answered >= |likes|) ==>
        (result == Done <==> fileStorage.writable) &&
        fileStorage.likesFile == (if fileStorage.writable then Stored(likes) else old(fileStorage.likesFile))
      ensures !dbStorage.Reachable() ==> dbStorage.likesTable == old(dbStorage.likesTable)
      ensures dbStorage.Reachable() && answered < |likes| ==>
        dbStorage.likesTable == Upsert(old(dbStorage.likesTable), likes, FirstKeys(order, answered))
    {
      var useDb := CheckDatabase();
      if useDb {
        var r := dbStorage.SaveLikes(likes, order, answered);
        if r == Done {
          return Done;
        }
      }
      result := fileStorage.SaveLikes(likes);
    }

    /** The database comments when the database is up and answers, the file's otherwise. */
    method GetComments(answered: nat) returns (comments: seq<Comment>)
      requires Valid()
      modifies this`useDatabase, dbStorage`db, dbStorage`initialized, dbStorage`initStarted, dbStorage`initRuns
      ensures Valid() && dbStorage.initStarted
      ensures dbStorage.Reachable() && answered > 0 ==> comments == DbListing(dbStorage.commentsTable)
      ensures !(dbStorage.Reachable() && answered > 0) ==> comments == ReadOr(fileStorage.commentsFile, [])
    {
      var useDb := CheckDatabase();
      if useDb {
        var r := dbStorage.GetComments(answered);
        if r.Ok? {
          return r.value;
        }
      }
      comments := fileStorage.GetComments();
    }

    /** Replaces the database table; the file is written only when the database is
        down or a statement fails, and then it receives the whole list. Only a
        failure of the file write reaches the caller. */
    method SaveComments(comments: seq<Comment>, answered: nat) returns (result: Outcome)
      requires Valid()
      modifies this`useDatabase, dbStorage`db, dbStorage`initialized, dbStorage`initStarted, dbStorage`initRuns
      modifies dbStorage`commentsTable, fileStorage`commentsFile
      ensures Valid() && dbStorage.initStarted
      ensures dbStorage.Reachable() && answered > |comments| && UniqueIds(comments) ==>
        result == Done && fileStorage.commentsFile == old(fileStorage.commentsFile) &&
        dbStorage.commentsTable == RowsOf(comments)
      ensures !(dbStorage.Reachable() && answered > |comments| && UniqueIds(comments)) ==>
        (result == Done <==> fileStorage.writable) &&
        fileStorage.commentsFile == (if fileStorage.writable then Stored(comments) else old(fileStorage.commentsFile))
      ensures !dbStorage.Reachable() || answered == 0 ==> dbStorage.commentsTable == old(dbStorage.commentsTable)
      ensures dbStorage.Reachable() && answered > 0 ==>
        dbStorage.commentsTable == RowsOf(comments[..InsertedCount(comments, answered)])
    {
      var useDb := CheckDatabase();
      if useDb {
        var r := dbStorage.SaveComments(comments, answered);
        if r == Done {
          UniqueIdsPrefix(comments);
          assert comments[..|comments|] == comments;
          return Done;
        }
      }
      result := fileStorage.SaveComments(comments);
    }
  }
}
