/**
 * The collection handlers of the task API (`GET /api/tasks` and
 * `POST /api/tasks`) and their bearer-token check.
 *
 * The identity service's `verifyIdToken` is a parameter (`Verifier`): it
 * maps a token to the uid it proves, or to `None` when verification throws.
 * The document store is an input too: for GET the documents of the `tasks`
 * collection (or `None` when the query throws), for POST the id `addDoc`
 * assigns (or `None` when it throws). The request body is `None` when it is
 * not JSON. Times are integer timestamps; `now` is `Timestamp.now()`.
 */
module TasksRoute {
  import opened Wrappers
  import opened TaskTypes
  import Text

  const BearerPrefix: string := "Bearer "

  type Verifier = string -> Option<string>

  /** A document of the `tasks` collection as POST writes it. */
  datatype StoredTask = StoredTask(
    title: string,
    description: Option<string>,
    status: Status,
    dueDate: Option<int>,
    userId: string,
    createdAt: int)

  datatype StoredDoc = StoredDoc(id: string, data: StoredTask)

  datatype Body = ErrorBody(error: string) | TaskList(tasks: seq<Task>) | CreatedBody(task: Task)

  datatype Response = Response(status: int, body: Body)

  /** A GET response, and the uid the store was queried for, if it was queried. */
  datatype GetResult = GetResult(response: Response, queriedFor: Option<string>)

  /** A POST response, and the record handed to `addDoc`, if the handler got that far. */
  datatype PostResult = PostResult(response: Response, stored: Option<StoredTask>)

  const Unauthorized := Response(401, ErrorBody("Unauthorized"))

  /**
   * The token `verifyToken` hands to the verifier: the header must start
   * with "Bearer ", and the token is `split('Bearer ')[1]`, the text after
   * that prefix up to the next "Bearer ", if any.
   */
  function BearerToken(header: Option<string>): (token: Option<string>)
    ensures token.Some? <==> header.Some? && Text.StartsWith(header.value, BearerPrefix)
    ensures token.Some? ==> Text.StartsWith(header.value, BearerPrefix + token.value)
    ensures token.Some? ==> !Text.Contains(token.value, BearerPrefix)
    ensures token.Some? ==>
      header.value == BearerPrefix + token.value
      || Text.OccursAt(header.value, BearerPrefix, |BearerPrefix| + |token.value|)
  {
    if header.None? || !Text.StartsWith(header.value, BearerPrefix) then None
    else
      var h := header.value;
      var rest := h[|BearerPrefix|..];
      Text.SplitAtLeadingSeparator(h, BearerPrefix);
      Text.SplitFirstPiece(rest, BearerPrefix);
      BearerTokenShape(h, rest, Text.Split(rest, BearerPrefix)[0]);
      Some(Text.Split(h, BearerPrefix)[1])
  }

  lemma BearerTokenShape(h: string, rest: string, token: string)
    requires Text.StartsWith(h, BearerPrefix) && rest == h[|BearerPrefix|..]
    requires Text.StartsWith(rest, token)
    requires token == rest || Text.OccursAt(rest, BearerPrefix, |token|)
    ensures Text.StartsWith(h, BearerPrefix + token)
    ensures h == BearerPrefix + token || Text.OccursAt(h, BearerPrefix, |BearerPrefix| + |token|)
  {
    var n := |BearerPrefix|;
    assert h == BearerPrefix + rest;
    assert h[..n + |token|] == BearerPrefix + token;
    if token != rest {
      assert h[n + |token|..n + |token| + n] == rest[|token|..|token| + n];
    }
  }

  /**
   * `verifyToken`: the verified uid, or `None`. A uid comes only from a
   * "Bearer " header, and then it is the verifier's answer for its token.
   */
  function VerifiedUser(header: Option<string>, verify: Verifier): (uid: Option<string>)
    ensures uid.Some? ==> header.Some? && Text.StartsWith(header.value, BearerPrefix)
    ensures header.Some? && Text.StartsWith(header.value, BearerPrefix) ==>
      uid == verify(BearerToken(header).value)
  {
    match BearerToken(header)
    case None => None
    case Some(token) => verify(token)
  }

  /** The handlers' `if (!userId)` test: an empty uid is falsy as well. */
  predicate Authorized(uid: Option<string>) {
    uid.Some? && uid.value != ""
  }

  /** The query `where('userId', '==', uid)` on the collection. */
  function OwnedBy(docs: seq<StoredDoc>, uid: string): (r: seq<StoredDoc>)
    ensures forall d :: d in r <==> d in docs && d.data.userId == uid
    ensures forall d :: multiset(r)[d] == if d.data.userId == uid then multiset(docs)[d] else 0
    ensures |r| <= |docs|
  {
    if docs == [] then []
    else
      assert docs == [docs[0]] + docs[1..];
      (if docs[0].data.userId == uid then [docs[0]] else []) + OwnedBy(docs[1..], uid)
  }

  /** The document a task is read from: its id, and every other field as stored. */
  function TaskToDoc(t: Task): StoredDoc {
    StoredDoc(t.id, StoredTask(t.title, t.description, t.status, t.dueDate, t.userId, t.createdAt))
  }

  /**
   * GET's mapping of one document: the document id first, then its fields;
   * a missing due date stays null. Nothing is lost: `TaskToDoc` gives the
   * document back.
   */
  function DocToTask(d: StoredDoc): (t: Task)
    ensures TaskToDoc(t) == d
  {
    var due := if d.data.dueDate.Some? then d.data.dueDate else None;
    Task(d.id, d.data.title, d.data.description, d.data.status, due, d.data.userId, d.data.createdAt)
  }

  /** `GET /api/tasks` */
  function HandleGet(header: Option<string>, verify: Verifier, store: Option<seq<StoredDoc>>): (r: GetResult)
    ensures r.response.status in {200, 401, 500}
    ensures r.response.status == 401 <==> !Authorized(VerifiedUser(header, verify))
    ensures r.response.status == 401 ==> r.queriedFor.None? && r.response == Unauthorized
    ensures r.response.status != 401 ==> r.queriedFor == VerifiedUser(header, verify)
    ensures r.response.status == 200 ==> r.response.body.TaskList? && store.Some?
    ensures r.response.status == 500 <==> Authorized(VerifiedUser(header, verify)) && store.None?
    ensures r.response.status == 500 ==> r.response.body == ErrorBody("Failed to fetch tasks")
  {
    var uid := VerifiedUser(header, verify);
    if !Authorized(uid) then GetResult(Unauthorized, None)
    else match store
      case None => GetResult(Response(500, ErrorBody("Failed to fetch tasks")), uid)
      case Some(docs) =>
        var owned := OwnedBy(docs, uid.value);
        var tasks := seq(|owned|, i requires 0 <= i < |owned| => DocToTask(owned[i]));
        GetResult(Response(200, TaskList(tasks)), uid)
  }

  /**
   * The record POST stores: the validated fields unchanged, then the
   * verified uid and the creation time.
   */
  function NewTaskRecord(data: CreateTask, uid: string, now: int): (r: StoredTask)
    ensures CreateTask(r.title, r.description, r.status, r.dueDate) == data
    ensures r.userId == uid && r.createdAt == now
  {
    var due := if data.dueDate.Some? then data.dueDate else None;
    StoredTask(data.title, data.description, data.status, due, uid, now)
  }

  /**
   * `POST /api/tasks`. The body is what `request.json()` gives, so it holds
   * no date value; a created task is therefore always undated.
   */
  function HandlePost(header: Option<string>, verify: Verifier, body: Option<Payload>, now: int, added: Option<string>): (r: PostResult)
    requires body.Some? ==> JsonPayload(body.value)
    ensures r.response.status in {201, 401, 500}
    ensures r.response.status == 401 <==> !Authorized(VerifiedUser(header, verify))
    ensures r.response.status == 401 ==> r.stored.None? && r.response == Unauthorized
    ensures r.stored.Some? ==>
      r.stored.value.userId == VerifiedUser(header, verify).value && r.stored.value.createdAt == now
    ensures r.response.status == 201 <==> r.stored.Some? && added.Some?
    ensures r.response.status == 500 ==> r.response.body == ErrorBody("Failed to create task")
    ensures r.stored.Some? ==> r.stored.value.dueDate.None?
  {
    var uid := VerifiedUser(header, verify);
    if !Authorized(uid) then PostResult(Unauthorized, None)
    else if body.None? then PostResult(Response(500, ErrorBody("Failed to create task")), None)
    else match ParseCreateTask(body.value)
      case Failure(_) => PostResult(Response(500, ErrorBody("Failed to create task")), None)
      case Success(data) =>
        JsonCreateIsUndated(body.value);
        var record := NewTaskRecord(data, uid.value, now);
        match added
        case None => PostResult(Response(500, ErrorBody("Failed to create task")), Some(record))
        case Some(id) =>
          var created := Task(id, record.title, record.description, record.status,
                              record.dueDate, record.userId, record.createdAt);
          PostResult(Response(201, CreatedBody(created)), Some(record))
  }

  // ---- properties -----------------------------------------------------------

  /** Without a "Bearer " header there is no user, whatever the verifier would say. */
  lemma VerifierNotConsultedWithoutBearer(header: Option<string>, v1: Verifier, v2: Verifier)
    requires header.None? || !Text.StartsWith(header.value, BearerPrefix)
    ensures VerifiedUser(header, v1) == VerifiedUser(header, v2) == None
  {
  }

  /** With a bearer token, the user is exactly what the verifier returns for it. */
  lemma VerifiedUserIsVerifierVerdict(h: string, verify: Verifier)
    requires Text.StartsWith(h, BearerPrefix)
    ensures BearerToken(Some(h)).Some?
    ensures VerifiedUser(Some(h), verify) == verify(BearerToken(Some(h)).value)
  {
  }

  /**
   * Some headers and the token extracted from them. `Headers.get` trims
   * the value, so a header sent as "Bearer " arrives as "Bearer" and has
   * no token; a second "Bearer " cuts the token short.
   */
  lemma BearerTokenExamples()
    ensures BearerToken(Some("Bearer abc")) == Some("abc")
    ensures BearerToken(Some("Bearer")) == None
    ensures BearerToken(Some("Bearer a Bearer b")) == Some("a ")
    ensures BearerToken(Some("bearer abc")) == None
    ensures BearerToken(None) == None
  {
    assert Text.StartsWith("Bearer abc", BearerPrefix);
    assert Text.Split("abc", BearerPrefix) == ["abc"];
    var h := "Bearer a Bearer b";
    assert Text.StartsWith(h, BearerPrefix);
    var rest := h[|BearerPrefix|..];
    assert rest == "a Bearer b";
    assert rest[0..7][0] == 'a' && rest[1..8][0] == ' ';
    assert !Text.OccursAt(rest, BearerPrefix, 0) && !Text.OccursAt(rest, BearerPrefix, 1);
    assert rest[2..9] == BearerPrefix;
    assert Text.OccursAt(rest, BearerPrefix, 2);
    assert Text.Contains(rest, BearerPrefix);
    assert Text.IndexOf(rest, BearerPrefix) == Some(2);
    assert rest[..2] == "a ";
  }

  /**
   * A GET lists the caller's documents and only those, in store order, each
   * under its document's id and with the stored due date (null stays null).
   */
  lemma GetListsOnlyOwnTasks(header: Option<string>, verify: Verifier, docs: seq<StoredDoc>)
    requires Authorized(VerifiedUser(header, verify))
    ensures HandleGet(header, verify, Some(docs)).response.status == 200
    ensures var tasks := HandleGet(header, verify, Some(docs)).response.body.tasks;
      var owned := OwnedBy(docs, VerifiedUser(header, verify).value);
      |tasks| == |owned|
      && forall i :: 0 <= i < |tasks| ==>
        tasks[i] == DocToTask(owned[i])
        && tasks[i].id == owned[i].id && tasks[i].dueDate == owned[i].data.dueDate
        && tasks[i].userId == VerifiedUser(header, verify).value && owned[i] in docs
  {
    var owned := OwnedBy(docs, VerifiedUser(header, verify).value);
    forall i | 0 <= i < |owned| ensures owned[i] in docs && owned[i].data.userId == VerifiedUser(header, verify).value {
      assert owned[i] in owned;
    }
  }

  /** A body that fails the create schema gives 500, never 400, and nothing is stored. */
  lemma PostInvalidBodyIs500(header: Option<string>, verify: Verifier, p: Payload, now: int, added: Option<string>)
    requires JsonPayload(p)
    requires Authorized(VerifiedUser(header, verify))
    requires ParseCreateTask(p).Failure?
    ensures HandlePost(header, verify, Some(p), now, added) ==
      PostResult(Response(500, ErrorBody("Failed to create task")), None)
  {
  }

  /**
   * A JSON body whose `dueDate` is anything but null never creates a task:
   * the answer is 401 or 500 and nothing is stored.
   */
  lemma DatedJsonPostFails(header: Option<string>, verify: Verifier, p: Payload, now: int, added: Option<string>)
    requires JsonPayload(p)
    requires "dueDate" in p && p["dueDate"] != Null
    ensures HandlePost(header, verify, Some(p), now, added).response.status in {401, 500}
    ensures HandlePost(header, verify, Some(p), now, added).stored.None?
  {
    JsonCreateIsUndated(p);
  }

  /**
   * A created task holds the validated fields, the verified uid and `now`;
   * a `userId` (or any other key outside the create schema) in the body
   * changes nothing.
   */
  lemma PostCreatesFromValidatedFields(header: Option<string>, verify: Verifier, p: Payload, q: Payload, now: int, id: string)
    requires JsonPayload(p) && JsonPayload(q)
    requires Authorized(VerifiedUser(header, verify))
    requires ParseCreateTask(p).Success?
    requires forall k :: k in CreateKeys ==> (k in p <==> k in q)
    requires forall k :: k in CreateKeys && k in p ==> p[k] == q[k]
    ensures HandlePost(header, verify, Some(q), now, Some(id)) == HandlePost(header, verify, Some(p), now, Some(id))
    ensures HandlePost(header, verify, Some(p), now, Some(id)).response == Response(201, CreatedBody(Task(
      id,
      ParseCreateTask(p).value.title,
      ParseCreateTask(p).value.description,
      ParseCreateTask(p).value.status,
      ParseCreateTask(p).value.dueDate,
      VerifiedUser(header, verify).value,
      now)))
  {
    CreateIgnoresOtherKeys(p, q);
  }

  /**
   * The task a POST creates is what a following GET lists for the new
   * document, wherever the store places that document among the others:
   * it comes right after the caller's documents that precede it.
   */
  lemma PostThenGet(header: Option<string>, verify: Verifier, p: Payload, now: int, id: string,
                    pre: seq<StoredDoc>, post: seq<StoredDoc>)
    requires JsonPayload(p)
    requires HandlePost(header, verify, Some(p), now, Some(id)).response.status == 201
    ensures var created := HandlePost(header, verify, Some(p), now, Some(id));
      var uid := VerifiedUser(header, verify).value;
      var get := HandleGet(header, verify, Some(pre + [StoredDoc(id, created.stored.value)] + post));
      get.response.status == 200 && |OwnedBy(pre, uid)| < |get.response.body.tasks|
      && get.response.body.tasks[|OwnedBy(pre, uid)|] == created.response.body.task
  {
    var created := HandlePost(header, verify, Some(p), now, Some(id));
    var uid := VerifiedUser(header, verify).value;
    var doc := StoredDoc(id, created.stored.value);
    OwnedByConcat(pre + [doc], post, uid);
    OwnedByConcat(pre, [doc], uid);
    assert OwnedBy([doc], uid) == [doc] + OwnedBy([], uid);
    var owned := OwnedBy(pre + [doc] + post, uid);
    assert owned[|OwnedBy(pre, uid)|] == doc;
  }

  /**
   * The query keeps the store's order: filtering a concatenation filters
   * each part and concatenates the results.
   */
  lemma {:induction false} OwnedByConcat(a: seq<StoredDoc>, b: seq<StoredDoc>, uid: string)
    ensures OwnedBy(a + b, uid) == OwnedBy(a, uid) + OwnedBy(b, uid)
  {
    if a == [] {
      assert a + b == b;
    } else {
      assert (a + b)[0] == a[0];
      assert (a + b)[1..] == a[1..] + b;
      OwnedByConcat(a[1..], b, uid);
    }
  }
}
