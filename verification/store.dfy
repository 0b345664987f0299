/** The `DatabaseManager` with the SQLite plumbing taken away: three tables,
    each a sequence of rows in rowid order. Timestamps are the caller's `now`
    and the random complaint-id digits are a parameter. */
module Store {
  import opened Wrappers
  import opened Text
  import opened Dicts
  import Json
  import Knowledge

  /** A row of `grievances`. */
  datatype Grievance = Grievance(
    complaintId: string,
    name: string,
    mobile: string,
    details: string,
    status: string,
    createdAt: nat,
    updatedAt: nat)

  /** A row of `chat_sessions`; both text columns are nullable. */
  datatype SessionRow = SessionRow(
    sessionId: string,
    userData: Option<string>,
    currentStep: Option<string>,
    createdAt: nat,
    updatedAt: nat)

  datatype Tables = Tables(
    grievances: seq<Grievance>,
    sessions: seq<SessionRow>,
    knowledge: seq<Knowledge.KbRow>)

  /** The exceptions a store call can raise. */
  datatype Fault =
    | DuplicateComplaintId  // sqlite3.IntegrityError on the UNIQUE complaint_id
    | MalformedUserData     // json.JSONDecodeError on a stored user_data
    | MissingField(key: string)  // KeyError on user_data in the engine

  /** The column default for `status`. */
  const Submitted := "Submitted"

  /** Six decimal digits, what `random.choices(string.digits, k=6)` draws. */
  type SixDigits = s: string | |s| == 6 && forall i :: 0 <= i < |s| ==> IsDigit(s[i])
    witness "000000"

  /** Both UNIQUE constraints hold. */
  predicate Valid(t: Tables) {
    && (forall i, j :: 0 <= i < j < |t.grievances| ==>
          t.grievances[i].complaintId != t.grievances[j].complaintId)
    && UniqueSessions(t.sessions)
  }

  predicate UniqueSessions(rows: seq<SessionRow>) {
    forall i, j :: 0 <= i < j < |rows| ==> rows[i].sessionId != rows[j].sessionId
  }

  predicate HasComplaintId(gs: seq<Grievance>, id: string) {
    exists i :: 0 <= i < |gs| && gs[i].complaintId == id
  }

  // ---------------------------------------------------------------------------
  // register_grievance
  // ---------------------------------------------------------------------------

  datatype Registered = Registered(tables: Tables, complaintId: string)

  /** `register_grievance`: the id is `GRV` and the six drawn digits; the row
      is appended with status `Submitted`, or the insert fails when the id is
      already taken. */
  function RegisterGrievance(t: Tables, digits: SixDigits, name: string, mobile: string,
                             details: string, now: nat): (r: Result<Registered, Fault>)
    ensures r.Failure? <==> HasComplaintId(t.grievances, "GRV" + digits)
    ensures r.Failure? ==> r.error == DuplicateComplaintId
    ensures r.Success? ==> var id := r.value.complaintId;
      && |id| == 9 && id[..3] == "GRV" && id[3..] == digits
      && forall i :: 3 <= i < 9 ==> IsDigit(id[i])
    ensures r.Success? ==> var u := r.value.tables;
      && u.sessions == t.sessions && u.knowledge == t.knowledge
      && |u.grievances| == |t.grievances| + 1
      && u.grievances[..|t.grievances|] == t.grievances
      && u.grievances[|t.grievances|] ==
           Grievance(r.value.complaintId, name, mobile, details, Submitted, now, now)
  {
    var id := "GRV" + digits;
    if HasComplaintId(t.grievances, id) then Failure(DuplicateComplaintId)
    else
      var row := Grievance(id, name, mobile, details, Submitted, now, now);
      var u := t.(grievances := t.grievances + [row]);
      assert u.grievances[..|t.grievances|] == t.grievances;
      Success(Registered(u, id))
  }

  /** Registering keeps complaint ids unique. */
  lemma RegisterKeepsValid(t: Tables, digits: SixDigits, name: string, mobile: string,
                           details: string, now: nat)
    requires Valid(t)
    ensures var r := RegisterGrievance(t, digits, name, mobile, details, now);
      r.Success? ==> Valid(r.value.tables)
  {
    var r := RegisterGrievance(t, digits, name, mobile, details, now);
    if r.Success? {
      var gs, n := r.value.tables.grievances, |t.grievances|;
      forall i, j | 0 <= i < j < |gs| ensures gs[i].complaintId != gs[j].complaintId {
        assert gs[i] == t.grievances[i];
        if j < n {
          assert gs[j] == t.grievances[j];
        }
      }
    }
  }

  // ---------------------------------------------------------------------------
  // get_grievance_status
  // ---------------------------------------------------------------------------

  /** The columns the status query selects. */
  datatype StatusInfo = StatusInfo(
    complaintId: string, name: string, status: string, createdAt: nat, updatedAt: nat)

  function InfoOf(g: Grievance): StatusInfo {
    StatusInfo(g.complaintId, g.name, g.status, g.createdAt, g.updatedAt)
  }

  /** A Python argument is truthy: given and not the empty string. */
  predicate Given(o: Option<string>) {
    o.Some? && o.value != ""
  }

  /** `WHERE complaint_id = ?`, first row in table order. */
  function ById(gs: seq<Grievance>, id: string): (r: Option<Grievance>)
    ensures r.None? <==> !HasComplaintId(gs, id)
    ensures r.Some? ==> r.value in gs && r.value.complaintId == id
  {
    if |gs| == 0 then None
    else if gs[0].complaintId == id then Some(gs[0])
    else
      var r := ById(gs[1..], id);
      assert HasComplaintId(gs, id) ==> HasComplaintId(gs[1..], id) by {
        if HasComplaintId(gs, id) {
          var i :| 0 <= i < |gs| && gs[i].complaintId == id;
          assert gs[1..][i - 1] == gs[i];
        }
      }
      assert r.Some? ==> r.value in gs;
      r
  }

  /** `WHERE mobile = ? ORDER BY created_at DESC LIMIT 1`: a row with that
      mobile and the greatest `created_at`; of equal ones, the earliest. */
  function Latest(gs: seq<Grievance>, mobile: string): (r: Option<Grievance>)
    ensures r.None? <==> forall g :: g in gs ==> g.mobile != mobile
    ensures r.Some? ==> r.value in gs && r.value.mobile == mobile
    ensures r.Some? ==> forall g :: g in gs && g.mobile == mobile ==> g.createdAt <= r.value.createdAt
  {
    if |gs| == 0 then None
    else
      var rest := Latest(gs[1..], mobile);
      assert forall g :: g in gs <==> g == gs[0] || g in gs[1..];
      if gs[0].mobile != mobile then rest
      else if rest.Some? && rest.value.createdAt > gs[0].createdAt then rest
      else Some(gs[0])
  }

  /** `get_grievance_status(complaint_id, mobile)`: a truthy id wins; then a
      truthy mobile; with neither there is no answer. */
  function GetGrievanceStatus(t: Tables, complaintId: Option<string>, mobile: Option<string>)
    : (r: Option<StatusInfo>)
    ensures !Given(complaintId) && !Given(mobile) ==> r.None?
    ensures Given(complaintId) ==>
      (r.None? <==> !HasComplaintId(t.grievances, complaintId.value))
    ensures Given(complaintId) && r.Some? ==>
      exists g :: g in t.grievances && g.complaintId == complaintId.value && r.value == InfoOf(g)
    ensures !Given(complaintId) && Given(mobile) ==>
      (r.None? <==> forall g :: g in t.grievances ==> g.mobile != mobile.value)
    ensures !Given(complaintId) && Given(mobile) && r.Some? ==>
      exists g :: g in t.grievances && g.mobile == mobile.value && r.value == InfoOf(g)
        && forall h :: h in t.grievances && h.mobile == mobile.value ==> h.createdAt <= g.createdAt
  {
    var row :=
      if Given(complaintId) then ById(t.grievances, complaintId.value)
      else if Given(mobile) then Latest(t.grievances, mobile.value)
      else None;
    match row
    case None => None
    case Some(g) => Some(InfoOf(g))
  }

  /** A registered complaint is found again by its id. */
  lemma RegisterThenStatus(t: Tables, digits: SixDigits, name: string, mobile: string,
                           details: string, now: nat)
    requires Valid(t)
    ensures var r := RegisterGrievance(t, digits, name, mobile, details, now);
      r.Success? ==>
        GetGrievanceStatus(r.value.tables, Some(r.value.complaintId), None) ==
        Some(StatusInfo(r.value.complaintId, name, Submitted, now, now))
  {
    var r := RegisterGrievance(t, digits, name, mobile, details, now);
    if r.Success? {
      RegisterKeepsValid(t, digits, name, mobile, details, now);
      var gs, n := r.value.tables.grievances, |t.grievances|;
      var found := ById(gs, r.value.complaintId).value;
      var i :| 0 <= i < |gs| && gs[i] == found;
      assert gs[n].complaintId == found.complaintId;
      assert i == n;
    }
  }

  // ---------------------------------------------------------------------------
  // update_chat_session / get_chat_session
  // ---------------------------------------------------------------------------

  /** The rows of `rows` for every session but `sid`, in order. */
  function Others(rows: seq<SessionRow>, sid: string): (r: seq<SessionRow>)
    ensures forall row :: row in r <==> row in rows && row.sessionId != sid
    ensures |r| <= |rows|
  {
    if |rows| == 0 then []
    else if rows[0].sessionId == sid then Others(rows[1..], sid)
    else [rows[0]] + Others(rows[1..], sid)
  }

  /** `update_chat_session`: INSERT OR REPLACE on the UNIQUE `session_id`
      deletes the session's row and appends a fresh one holding
      `json.dumps(user_data)` and the step. */
  function UpdateChatSession(t: Tables, sid: string, userData: Dict, step: string, now: nat)
    : (u: Tables)
    ensures u.grievances == t.grievances && u.knowledge == t.knowledge
    ensures forall row :: row in t.sessions && row.sessionId != sid ==> row in u.sessions
    ensures forall row :: row in u.sessions && row.sessionId != sid ==> row in t.sessions
    ensures forall i :: 0 <= i < |u.sessions| - 1 ==> u.sessions[i].sessionId != sid
    ensures |u.sessions| > 0 && u.sessions[|u.sessions| - 1].sessionId == sid
  {
    var row := SessionRow(sid, Some(Json.EncodeDict(userData)), Some(step), now, now);
    var others := Others(t.sessions, sid);
    assert forall i :: 0 <= i < |others| ==> others[i] in others;
    t.(sessions := others + [row])
  }

  /** Replacing a session keeps session ids unique. */
  lemma UpdateKeepsValid(t: Tables, sid: string, userData: Dict, step: string, now: nat)
    requires Valid(t)
    ensures Valid(UpdateChatSession(t, sid, userData, step, now))
  {
    var u := UpdateChatSession(t, sid, userData, step, now);
    var others := Others(t.sessions, sid);
    OthersUnique(t.sessions, sid);
    assert u.sessions[..|others|] == others;
  }

  /** Dropping rows keeps the remaining session ids unique. */
  lemma {:induction false} OthersUnique(rows: seq<SessionRow>, sid: string)
    requires UniqueSessions(rows)
    ensures UniqueSessions(Others(rows, sid))
    decreases |rows|
  {
    if |rows| > 0 {
      OthersUnique(rows[1..], sid);
      if rows[0].sessionId != sid {
        var o := Others(rows[1..], sid);
        forall k | 0 <= k < |o| ensures o[k].sessionId != rows[0].sessionId {
          assert o[k] in rows[1..];
        }
      }
    }
  }

  /** `WHERE session_id = ?`, first row in table order. */
  function FindSession(rows: seq<SessionRow>, sid: string): (r: Option<SessionRow>)
    ensures r.None? <==> forall row :: row in rows ==> row.sessionId != sid
    ensures r.Some? ==> r.value in rows && r.value.sessionId == sid
  {
    if |rows| == 0 then None
    else if rows[0].sessionId == sid then Some(rows[0])
    else
      assert forall row :: row in rows <==> row == rows[0] || row in rows[1..];
      FindSession(rows[1..], sid)
  }

  /** What `get_chat_session` returns for a row: the decoded `user_data` and
      the step. */
  datatype Session = Session(userData: Dict, currentStep: Option<string>)

  /** `json.loads(user_data) if user_data else {}`. */
  function LoadUserData(column: Option<string>): (r: Result<Dict, Fault>)
    ensures column.None? || column == Some("") ==> r == Success([])
    ensures column.Some? && column.value != "" ==>
      (r.Success? <==> Json.DecodeDict(column.value).Some?)
  {
    if column.None? || column.value == "" then Success([])
    else
      match Json.DecodeDict(column.value)
      case None => Failure(MalformedUserData)
      case Some(d) => Success(d)
  }

  /** `get_chat_session(session_id)`: nothing for an unknown id, otherwise the
      row's decoded data; text that is not a JSON object raises. */
  function GetChatSession(t: Tables, sid: string): (r: Result<Option<Session>, Fault>)
    ensures (r == Success(None)) <==> forall row :: row in t.sessions ==> row.sessionId != sid
    ensures r.Success? && r.value.Some? ==>
      exists row :: row in t.sessions && row.sessionId == sid &&
        r.value.value.currentStep == row.currentStep
    ensures FindSession(t.sessions, sid).Some? ==>
      var row := FindSession(t.sessions, sid).value;
      && (r.Success? <==> LoadUserData(row.userData).Success?)
      && (r.Success? ==> r.value == Some(Session(LoadUserData(row.userData).value, row.currentStep)))
  {
    match FindSession(t.sessions, sid)
    case None => Success(None)
    case Some(row) =>
      var d :- LoadUserData(row.userData);
      Success(Some(Session(d, row.currentStep)))
  }

  /** The last row of a session table whose other rows are for other ids is
      the one found. */
  lemma {:induction false} FindLast(rows: seq<SessionRow>, row: SessionRow)
    requires forall x :: x in rows ==> x.sessionId != row.sessionId
    ensures FindSession(rows + [row], row.sessionId) == Some(row)
    decreases |rows|
  {
    if |rows| > 0 {
      assert (rows + [row])[1..] == rows[1..] + [row];
      FindLast(rows[1..], row);
    } else {
      assert rows + [row] == [row];
    }
  }

  /** Finding another session is not affected by appending a row for `sid`,
      nor by deleting the rows for `sid`. */
  lemma {:induction false} FindOthers(rows: seq<SessionRow>, sid: string, row: SessionRow, other: string)
    requires other != sid && row.sessionId == sid
    ensures FindSession(Others(rows, sid) + [row], other) == FindSession(rows, other)
    decreases |rows|
  {
    if |rows| == 0 {
      assert Others(rows, sid) + [row] == [row];
    } else if rows[0].sessionId == sid {
      FindOthers(rows[1..], sid, row, other);
    } else {
      var o := Others(rows[1..], sid);
      assert Others(rows, sid) + [row] == [rows[0]] + (o + [row]);
      assert ([rows[0]] + (o + [row]))[1..] == o + [row];
      FindOthers(rows[1..], sid, row, other);
    }
  }

  /** `update_chat_session` then `get_chat_session` on the same id gives back
      the same `user_data` (through a JSON round trip) and the same step. */
  lemma SessionRoundTrip(t: Tables, sid: string, userData: Dict, step: string, now: nat)
    ensures GetChatSession(UpdateChatSession(t, sid, userData, step, now), sid) ==
      Success(Some(Session(userData, Some(step))))
  {
    var row := SessionRow(sid, Some(Json.EncodeDict(userData)), Some(step), now, now);
    var others := Others(t.sessions, sid);
    assert UpdateChatSession(t, sid, userData, step, now).sessions == others + [row];
    FindLast(others, row);
    StoredDataLoads(userData);
  }

  /** What `json.dumps` stored, `json.loads` reads back. */
  lemma StoredDataLoads(d: Dict)
    ensures LoadUserData(Some(Json.EncodeDict(d))) == Success(d)
  {
    Json.DecodeEncode(d);
  }

  /** `update_chat_session` on one id leaves every other session as it reads. */
  lemma SessionsIndependent(t: Tables, sid: string, userData: Dict, step: string, now: nat,
                            other: string)
    requires other != sid
    ensures GetChatSession(UpdateChatSession(t, sid, userData, step, now), other) ==
      GetChatSession(t, other)
  {
    var row := SessionRow(sid, Some(Json.EncodeDict(userData)), Some(step), now, now);
    FindOthers(t.sessions, sid, row, other);
  }

  // ---------------------------------------------------------------------------
  // populate_knowledge_base / search_knowledge_base
  // ---------------------------------------------------------------------------

  /** `populate_knowledge_base` on the store: only the knowledge table moves. */
  function PopulateKnowledgeBase(t: Tables): (u: Tables)
    ensures u.grievances == t.grievances && u.sessions == t.sessions
    ensures |u.knowledge| > 0
    ensures |t.knowledge| > 0 ==> u == t
  {
    t.(knowledge := Knowledge.Populate(t.knowledge))
  }

  /** Running the seeding at every start-up does not duplicate the seed rows. */
  lemma PopulateTwice(t: Tables)
    ensures PopulateKnowledgeBase(PopulateKnowledgeBase(t)) == PopulateKnowledgeBase(t)
    ensures |t.knowledge| == 0 ==> PopulateKnowledgeBase(t).knowledge == Knowledge.SeedRows
  {
  }
}
