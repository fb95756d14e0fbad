/** The backend: one JSON document holding three collections, and the REST route handlers
    that each read the whole document, change one collection and write it back. */
module Store {
  import opened Wrappers
  import opened Json
  import Lists
  import JsNumbers

  /** The three collections of the document. */
  datatype Collection = Gallery | Blogs | JoinSubmissions

  /** The persisted document `{ gallery, blogs, joinSubmissions }`, each an ordered list of records. */
  datatype Document = Document(gallery: seq<Record>, blogs: seq<Record>, joinSubmissions: seq<Record>)
  {
    function Get(c: Collection): seq<Record>
    {
      match c
      case Gallery => gallery
      case Blogs => blogs
      case JoinSubmissions => joinSubmissions
    }

    /** The document with collection `c` replaced by `rs`. */
    function With(c: Collection, rs: seq<Record>): (d: Document)
      ensures d.Get(c) == rs
      ensures forall other :: other != c ==> d.Get(other) == Get(other)
    {
      match c
      case Gallery => this.(gallery := rs)
      case Blogs => this.(blogs := rs)
      case JoinSubmissions => this.(joinSubmissions := rs)
    }
  }

  /** The default structure returned when there is no usable database file. */
  const EmptyDocument := Document([], [], [])

  /** `readDatabase`: the document in the file, or the default one when the file is
      missing, unreadable or not valid JSON (`None`). */
  function Load(file: Option<Document>): (d: Document)
    ensures forall c :: d.Get(c) == if file.Some? then file.value.Get(c) else []
  {
    match file
    case None => EmptyDocument
    case Some(d) => d
  }

  /** What a route answers: a record, a list of records, the delete confirmation,
      a 404, or the legacy join route's `{ message, data }` echo of the request body. */
  datatype Reply = Item(record: Record) | Items(records: seq<Record>) | Deleted | NotFound | Received(data: Record)

  // ---------------------------------------------------------------------------------------
  // Finding records by id

  /** `item.id === id` where `id = parseInt(req.params.id)`: `NaN` (`None`) equals nothing,
      and a stored id that is not a number never equals a parsed one. */
  predicate IdMatches(r: Record, id: Option<int>)
  {
    id.Some? && "id" in r && r["id"] == Num(id.value)
  }

  /** `rs.findIndex(item => item.id === id)`: the first matching position, or -1. */
  function FindIndex(rs: seq<Record>, id: Option<int>): (i: int)
    ensures -1 <= i < |rs|
    ensures i == -1 <==> forall k :: 0 <= k < |rs| ==> !IdMatches(rs[k], id)
    ensures i >= 0 ==> IdMatches(rs[i], id) && forall k :: 0 <= k < i ==> !IdMatches(rs[k], id)
  {
    if rs == [] then -1
    else if IdMatches(rs[0], id) then 0
    else
      var j := FindIndex(rs[1..], id);
      if j == -1 then -1 else j + 1
  }

  /** The filter callback `item => item.id !== id`. */
  function NotMatching(id: Option<int>): Record -> bool
  {
    r => !IdMatches(r, id)
  }

  /** `rs.filter(item => item.id !== id)`: every record with that id removed, the others
      kept with their multiplicities and in their original order. */
  function RemoveById(rs: seq<Record>, id: Option<int>): (r: seq<Record>)
    ensures |r| <= |rs|
    ensures forall k :: 0 <= k < |r| ==> !IdMatches(r[k], id) && r[k] in rs
    ensures Lists.IsSubsequence(r, rs)
    ensures forall x :: !IdMatches(x, id) ==> multiset(r)[x] == multiset(rs)[x]
  {
    Lists.FilterIsSubsequence(rs, NotMatching(id));
    forall x | !IdMatches(x, id)
      ensures multiset(Lists.Filter(rs, NotMatching(id)))[x] == multiset(rs)[x]
    {
      Lists.FilterCount(rs, NotMatching(id), x);
    }
    Lists.Filter(rs, NotMatching(id))
  }

  // ---------------------------------------------------------------------------------------
  // Records the server builds

  /** `clock.split('T')[0]`: the text before the first `T` (the whole text if there is none);
      applied to an ISO timestamp it is the calendar date. */
  function DatePart(clock: string): (d: string)
    ensures d <= clock
    ensures forall i :: 0 <= i < |d| ==> d[i] != 'T'
    ensures |d| < |clock| ==> clock[|d|] == 'T'
  {
    if clock == [] || clock[0] == 'T' then [] else [clock[0]] + DatePart(clock[1..])
  }

  /** `{ ...body, id: Date.now(), uploadDate: <today> }` for a new gallery item, where
      `now` is `Date.now()` and `clock` is `new Date().toISOString()`. */
  function NewGalleryItem(body: Record, now: int, clock: string): (r: Record)
    ensures r.Keys == body.Keys + {"id", "uploadDate"}
    ensures r["id"] == Num(now) && r["uploadDate"] == Str(DatePart(clock))
    ensures forall k :: k in body && k != "id" && k != "uploadDate" ==> r[k] == body[k]
  {
    Spread(body, map["id" := Num(now), "uploadDate" := Str(DatePart(clock))])
  }

  /** `{ ...body, id, date, uploadDate }` for a new blog post; the two dates come from two
      separate readings of the clock. */
  function NewBlogPost(body: Record, now: int, dateClock: string, uploadClock: string): (r: Record)
    ensures r.Keys == body.Keys + {"id", "date", "uploadDate"}
    ensures r["id"] == Num(now) && r["date"] == Str(DatePart(dateClock))
    ensures r["uploadDate"] == Str(DatePart(uploadClock))
    ensures forall k :: k in body && k != "id" && k != "date" && k != "uploadDate" ==> r[k] == body[k]
  {
    Spread(body, map["id" := Num(now), "date" := Str(DatePart(dateClock)), "uploadDate" := Str(DatePart(uploadClock))])
  }

  /** `{ ...body, id, submissionDate: <full ISO timestamp>, status: 'pending' }`. */
  function NewSubmission(body: Record, now: int, clock: string): (r: Record)
    ensures r.Keys == body.Keys + {"id", "submissionDate", "status"}
    ensures r["id"] == Num(now) && r["submissionDate"] == Str(clock) && r["status"] == Str("pending")
    ensures forall k :: k in body && k != "id" && k != "submissionDate" && k != "status" ==> r[k] == body[k]
  {
    Spread(body, map["id" := Num(now), "submissionDate" := Str(clock), "status" := Str("pending")])
  }

  /** `const { status } = req.body`: `None` when the body has no `status` field. */
  function StatusOf(body: Record): (status: Option<Value>)
    ensures status.Some? <==> "status" in body
    ensures status.Some? ==> status.value == body["status"]
  {
    if "status" in body then Some(body["status"]) else None
  }

  /** The record after `record.status = status`. Assigning `undefined` leaves a field that
      JSON serialisation drops, so `None` removes the field. */
  function WithStatus(r: Record, status: Option<Value>): (r': Record)
    ensures forall k :: k != "status" ==> (k in r' <==> k in r)
    ensures forall k :: k in r && k != "status" ==> r'[k] == r[k]
    ensures "status" in r' <==> status.Some?
    ensures status.Some? ==> r'["status"] == status.value
  {
    match status
    case None => r - {"status"}
    case Some(v) => r["status" := v]
  }

  // ---------------------------------------------------------------------------------------
  // The in-memory document and the server

  /** The object `readDatabase` returns, which a handler changes in place. */
  class Database {
    var gallery: seq<Record>
    var blogs: seq<Record>
    var joinSubmissions: seq<Record>

    constructor (d: Document)
      ensures Snapshot() == d
    {
      gallery, blogs, joinSubmissions := d.gallery, d.blogs, d.joinSubmissions;
    }

    /** The document this object holds, as `JSON.stringify` would write it. */
    function Snapshot(): Document
      reads this
    {
      Document(gallery, blogs, joinSubmissions)
    }

    /** `db.<c>.push(r)` */
    method Push(c: Collection, r: Record)
      modifies this
      ensures Snapshot() == old(Snapshot()).With(c, old(Snapshot().Get(c)) + [r])
    {
      match c
      case Gallery => gallery := gallery + [r];
      case Blogs => blogs := blogs + [r];
      case JoinSubmissions => joinSubmissions := joinSubmissions + [r];
    }

    /** `db.<c>[i] = r` */
    method Replace(c: Collection, i: nat, r: Record)
      requires i < |Snapshot().Get(c)|
      modifies this
      ensures Snapshot() == old(Snapshot()).With(c, old(Snapshot().Get(c))[i := r])
    {
      match c
      case Gallery => gallery := gallery[i := r];
      case Blogs => blogs := blogs[i := r];
      case JoinSubmissions => joinSubmissions := joinSubmissions[i := r];
    }

    /** `db.<c> = rs` */
    method Assign(c: Collection, rs: seq<Record>)
      modifies this
      ensures Snapshot() == old(Snapshot()).With(c, rs)
    {
      match c
      case Gallery => gallery := rs;
      case Blogs => blogs := rs;
      case JoinSubmissions => joinSubmissions := rs;
    }
  }

  /** The backend process; its one piece of state is the database file. `None` stands for a
      file that is missing, unreadable or not valid JSON. */
  class Server {
    var file: Option<Document>

    constructor (file: Option<Document>)
      ensures this.file == file
    {
      this.file := file;
    }

    /** `readDatabase()`: a fresh in-memory copy of the stored document, or of the default
        document when the file cannot be used. */
    method ReadDatabase() returns (db: Database)
      ensures fresh(db)
      ensures db.Snapshot() == Load(file)
    {
      db := new Database(Load(file));
    }

    /** `writeDatabase(db)`: the whole file is replaced by the document. */
    method WriteDatabase(db: Database)
      modifies this
      ensures file == Some(db.Snapshot())
    {
      file := Some(db.Snapshot());
    }

    /** `GET /api/gallery`, `/api/blogs`, `/api/join-submissions`: the stored collection,
        in insertion order; nothing is written. */
    method List(c: Collection) returns (reply: Reply)
      ensures reply == Items(Load(file).Get(c))
    {
      var db := ReadDatabase();
      reply := Items(db.Snapshot().Get(c));
    }

    /** `POST /api/gallery` */
    method PostGallery(body: Record, now: int, clock: string) returns (reply: Reply)
      modifies this
      ensures var before := Load(old(file));
              var item := NewGalleryItem(body, now, clock);
              reply == Item(item) && file == Some(before.With(Gallery, before.gallery + [item]))
    {
      var db := ReadDatabase();
      var newItem := NewGalleryItem(body, now, clock);
      db.Push(Gallery, newItem);
      WriteDatabase(db);
      reply := Item(newItem);
    }

    /** `POST /api/blogs`; `dateClock` and `uploadClock` are the two readings of the clock. */
    method PostBlog(body: Record, now: int, dateClock: string, uploadClock: string) returns (reply: Reply)
      modifies this
      ensures var before := Load(old(file));
              var post := NewBlogPost(body, now, dateClock, uploadClock);
              reply == Item(post) && file == Some(before.With(Blogs, before.blogs + [post]))
    {
      var db := ReadDatabase();
      var newPost := NewBlogPost(body, now, dateClock, uploadClock);
      db.Push(Blogs, newPost);
      WriteDatabase(db);
      reply := Item(newPost);
    }

    /** `POST /api/join-submissions` */
    method PostJoinSubmission(body: Record, now: int, clock: string) returns (reply: Reply)
      modifies this
      ensures var before := Load(old(file));
              var submission := NewSubmission(body, now, clock);
              reply == Item(submission)
              && file == Some(before.With(JoinSubmissions, before.joinSubmissions + [submission]))
    {
      var db := ReadDatabase();
      var newSubmission := NewSubmission(body, now, clock);
      db.Push(JoinSubmissions, newSubmission);
      WriteDatabase(db);
      reply := Item(newSubmission);
    }

    /** `POST /api/join`, the legacy route: the same change to the file as
        `POST /api/join-submissions`, but the reply echoes the request body. */
    method PostJoin(body: Record, now: int, clock: string) returns (reply: Reply)
      modifies this
      ensures var before := Load(old(file));
              var submission := NewSubmission(body, now, clock);
              reply == Received(body)
              && file == Some(before.With(JoinSubmissions, before.joinSubmissions + [submission]))
    {
      var db := ReadDatabase();
      var newSubmission := NewSubmission(body, now, clock);
      db.Push(JoinSubmissions, newSubmission);
      WriteDatabase(db);
      reply := Received(body);
    }

    /** `PUT /api/gallery/:id` and `PUT /api/blogs/:id` (there is no such route for join
        submissions): the body is merged over the first record with that id, in place;
        an id with no match is a 404 and nothing is written. */
    method UpdateById(c: Collection, param: string, body: Record) returns (reply: Reply)
      requires c == Gallery || c == Blogs
      modifies this
      ensures var before := Load(old(file));
              var rs := before.Get(c);
              var i := FindIndex(rs, JsNumbers.ParseInt(param));
              if i == -1 then reply == NotFound && file == old(file)
              else reply == Item(Spread(rs[i], body)) && file == Some(before.With(c, rs[i := Spread(rs[i], body)]))
    {
      var db := ReadDatabase();
      var id := JsNumbers.ParseInt(param);
      var index := FindIndex(db.Snapshot().Get(c), id);
      if index == -1 {
        return NotFound;
      }
      var merged := Spread(db.Snapshot().Get(c)[index], body);
      db.Replace(c, index, merged);
      WriteDatabase(db);
      reply := Item(db.Snapshot().Get(c)[index]);
    }

    /** `PUT /api/join-submissions/:id/status`: only the `status` field of the first matching
        submission changes, to whatever the body holds; no match is a 404 with no write. */
    method UpdateStatus(param: string, body: Record) returns (reply: Reply)
      modifies this
      ensures var before := Load(old(file));
              var rs := before.joinSubmissions;
              var i := FindIndex(rs, JsNumbers.ParseInt(param));
              if i == -1 then reply == NotFound && file == old(file)
              else
                var updated := WithStatus(rs[i], StatusOf(body));
                reply == Item(updated) && file == Some(before.With(JoinSubmissions, rs[i := updated]))
    {
      var db := ReadDatabase();
      var id := JsNumbers.ParseInt(param);
      var status := StatusOf(body);
      var index := FindIndex(db.Snapshot().Get(JoinSubmissions), id);
      if index == -1 {
        return NotFound;
      }
      var updated := WithStatus(db.Snapshot().Get(JoinSubmissions)[index], status);
      db.Replace(JoinSubmissions, index, updated);
      WriteDatabase(db);
      reply := Item(updated);
    }

    /** `DELETE /api/gallery/:id`, `/api/blogs/:id`, `/api/join-submissions/:id`: every record
        with that id is removed and the document is written, whether or not one matched. */
    method DeleteById(c: Collection, param: string) returns (reply: Reply)
      modifies this
      ensures var before := Load(old(file));
              reply == Deleted
              && file == Some(before.With(c, RemoveById(before.Get(c), JsNumbers.ParseInt(param))))
    {
      var db := ReadDatabase();
      var id := JsNumbers.ParseInt(param);
      db.Assign(c, RemoveById(db.Snapshot().Get(c), id));
      WriteDatabase(db);
      reply := Deleted;
    }
  }
}
