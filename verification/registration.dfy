/** What a conversation does over several turns: how each step of the
    registration chain moves, the invariant the saved sessions keep, and the
    four-message registration from a fresh session to a stored complaint. */
module Conversation {
  import opened Wrappers
  import opened Text
  import opened Dicts
  import opened Extract
  import opened Store
  import opened Engine
  import Json
  import Knowledge

  /** The next turn on `sid` starts from `data` and `step`: either the row
      stored for `sid` reads so, or there is no row and they are the defaults. */
  predicate Sees(t: Tables, sid: string, data: Dict, step: Option<string>) {
    Load(t, sid) == Success(View(data, step))
  }

  /** A turn is the dispatch on what the session reads. */
  lemma TurnFromSession(t: Tables, sid: string, data: Dict, step: Option<string>, message: string,
                        out: Outside)
    requires Sees(t, sid, data, step)
    ensures ProcessMessage(t, sid, message, out) == Dispatch(t, sid, data, step, message, out)
  {
  }

  /** An unknown session id is treated as a fresh session in the initial step. */
  lemma UnknownSession(t: Tables, sid: string, message: string, out: Outside)
    requires forall row :: row in t.sessions ==> row.sessionId != sid
    ensures ProcessMessage(t, sid, message, out) == Dispatch(t, sid, [], Some(Initial), message, out)
  {
    assert Sees(t, sid, [], Some(Initial));
    TurnFromSession(t, sid, [], Some(Initial), message, out);
  }

  /** After a saved turn the session reads what was saved. */
  lemma SavedSees(t: Tables, sid: string, data: Dict, step: string, reply: Reply, now: nat)
    ensures Sees(Save(t, sid, data, step, reply, now).tables, sid, data, Some(step))
  {
    SessionRoundTrip(t, sid, data, step, now);
  }

  // ---------------------------------------------------------------------------
  // One turn per step
  // ---------------------------------------------------------------------------

  /** The outcome of a turn that saves `data` at `step` and registers nothing. */
  predicate Stays(t: Tables, r: Result<Turn, Fault>, sid: string, data: Dict, step: string) {
    && r.Success?
    && !r.value.registered
    && r.value.tables.grievances == t.grievances
    && r.value.tables.knowledge == t.knowledge
    && Sees(r.value.tables, sid, data, Some(step))
  }

  /** In the initial step a complaint intent moves to collecting the name. */
  lemma InitialRegisterIntent(t: Tables, sid: string, data: Dict, message: string, out: Outside)
    requires Sees(t, sid, data, Some(Initial))
    requires AnalyzeIntent(message) == RegisterComplaint
    ensures var r := ProcessMessage(t, sid, message, out);
      Stays(t, r, sid, data, CollectingName) && r.value.response == AskName
  {
    TurnFromSession(t, sid, data, Some(Initial), message, out);
    SavedSees(t, sid, data, CollectingName, AskName, out.now);
  }

  /** A status question or a general query keeps the initial step and the
      data. A status question is answered from the grievances, a general
      query by the knowledge base and the language model. */
  lemma InitialOtherIntent(t: Tables, sid: string, data: Dict, message: string, out: Outside)
    requires Sees(t, sid, data, Some(Initial))
    requires AnalyzeIntent(message) != RegisterComplaint
    ensures Stays(t, ProcessMessage(t, sid, message, out), sid, data, Initial)
    ensures AnalyzeIntent(message) == CheckStatus ==>
      ProcessMessage(t, sid, message, out).value.response == StatusAnswer(t, message)
    ensures AnalyzeIntent(message) == General ==>
      ProcessMessage(t, sid, message, out).value.response == RagResponse(t.knowledge, message, out.llm)
  {
    TurnFromSession(t, sid, data, Some(Initial), message, out);
    var reply := if AnalyzeIntent(message) == CheckStatus then StatusAnswer(t, message)
                 else RagResponse(t.knowledge, message, out.llm);
    SavedSees(t, sid, data, Initial, reply, out.now);
  }

  /** A status question answers from the latest complaint filed with the
      mobile number it contains. */
  lemma StatusByMobile(t: Tables, message: string, mobile: string)
    requires ExtractMobile(message) == Some(mobile)
    ensures StatusAnswer(t, message) ==
      match Latest(t.grievances, mobile)
      case None => NoComplaintForMobile
      case Some(g) => StatusOf(InfoOf(g))
  {
  }

  /** The reply a status question gets in the initial step: without a mobile
      number in it, a request for the complaint id or the mobile; with one,
      the status of the latest complaint filed with it, or that there is none. */
  lemma StatusTurn(t: Tables, sid: string, data: Dict, message: string, out: Outside)
    requires Sees(t, sid, data, Some(Initial))
    requires AnalyzeIntent(message) == CheckStatus
    ensures var r := ProcessMessage(t, sid, message, out);
      && Stays(t, r, sid, data, Initial)
      && r.value.response ==
        match ExtractMobile(message)
        case None => AskIdOrMobile
        case Some(mobile) =>
          match Latest(t.grievances, mobile)
          case None => NoComplaintForMobile
          case Some(g) => StatusOf(InfoOf(g))
  {
    InitialOtherIntent(t, sid, data, message, out);
    if ExtractMobile(message).Some? {
      StatusByMobile(t, message, ExtractMobile(message).value);
    }
  }

  /** A valid name is recorded and the chain moves on to the mobile number. */
  lemma NameAccepted(t: Tables, sid: string, data: Dict, message: string, out: Outside, name: string)
    requires Sees(t, sid, data, Some(CollectingName))
    requires ExtractName(message) == Some(name)
    ensures var r := ProcessMessage(t, sid, message, out);
      Stays(t, r, sid, Put(data, "name", name), CollectingMobile) && r.value.response == ThankName(name)
  {
    TurnFromSession(t, sid, data, Some(CollectingName), message, out);
    SavedSees(t, sid, Put(data, "name", name), CollectingMobile, ThankName(name), out.now);
  }

  /** Anything else leaves the step and the data as they were. */
  lemma NameRejected(t: Tables, sid: string, data: Dict, message: string, out: Outside)
    requires Sees(t, sid, data, Some(CollectingName))
    requires ExtractName(message).None?
    ensures var r := ProcessMessage(t, sid, message, out);
      Stays(t, r, sid, data, CollectingName) && r.value.response == InvalidName
  {
    TurnFromSession(t, sid, data, Some(CollectingName), message, out);
    SavedSees(t, sid, data, CollectingName, InvalidName, out.now);
  }

  /** A message holding a mobile number records it and asks for the details. */
  lemma MobileAccepted(t: Tables, sid: string, data: Dict, message: string, out: Outside, mobile: string)
    requires Sees(t, sid, data, Some(CollectingMobile))
    requires ExtractMobile(message) == Some(mobile)
    ensures var r := ProcessMessage(t, sid, message, out);
      Stays(t, r, sid, Put(data, "mobile", mobile), CollectingComplaint) && r.value.response == AskDetails
  {
    TurnFromSession(t, sid, data, Some(CollectingMobile), message, out);
    SavedSees(t, sid, Put(data, "mobile", mobile), CollectingComplaint, AskDetails, out.now);
  }

  lemma MobileRejected(t: Tables, sid: string, data: Dict, message: string, out: Outside)
    requires Sees(t, sid, data, Some(CollectingMobile))
    requires ExtractMobile(message).None?
    ensures var r := ProcessMessage(t, sid, message, out);
      Stays(t, r, sid, data, CollectingMobile) && r.value.response == InvalidMobile
  {
    TurnFromSession(t, sid, data, Some(CollectingMobile), message, out);
    SavedSees(t, sid, data, CollectingMobile, InvalidMobile, out.now);
  }

  /** Details of ten characters or fewer, once stripped, are refused. */
  lemma DetailsTooShort(t: Tables, sid: string, data: Dict, message: string, out: Outside)
    requires Sees(t, sid, data, Some(CollectingComplaint))
    requires |Strip(message)| <= 10
    ensures var r := ProcessMessage(t, sid, message, out);
      Stays(t, r, sid, data, CollectingComplaint) && r.value.response == TooShort
  {
    TurnFromSession(t, sid, data, Some(CollectingComplaint), message, out);
    DispatchDetails(t, sid, data, message, out);
    ShortDetails(t, sid, data, message, out);
    SavedSees(t, sid, data, CollectingComplaint, TooShort, out.now);
  }

  lemma DispatchDetails(t: Tables, sid: string, data: Dict, message: string, out: Outside)
    ensures Dispatch(t, sid, data, Some(CollectingComplaint), message, out) ==
      FromComplaint(t, sid, data, message, out)
  {
  }

  lemma ShortDetails(t: Tables, sid: string, data: Dict, message: string, out: Outside)
    requires |Strip(message)| <= 10
    ensures FromComplaint(t, sid, data, message, out) ==
      Success(Save(t, sid, data, CollectingComplaint, TooShort, out.now))
  {
  }

  lemma LongDetails(t: Tables, sid: string, data: Dict, message: string, out: Outside,
                    name: string, mobile: string, reg: Registered)
    requires |Strip(message)| > 10
    requires Lookup(Put(data, "complaint_details", message), "name") == Success(name)
    requires Lookup(Put(data, "complaint_details", message), "mobile") == Success(mobile)
    requires RegisterGrievance(t, out.digits, name, mobile, message, out.now) == Success(reg)
    ensures FromComplaint(t, sid, data, message, out) ==
      Success(Turn(UpdateChatSession(reg.tables, sid, [], Initial, out.now),
                   RegisteredAs(reg.complaintId), true))
  {
  }

  /** The stored name and mobile survive adding the details. */
  lemma CollectedFields(data: Dict, message: string, name: string, mobile: string)
    requires Get(data, "name") == Some(name) && Get(data, "mobile") == Some(mobile)
    ensures Lookup(Put(data, "complaint_details", message), "name") == Success(name)
    ensures Lookup(Put(data, "complaint_details", message), "mobile") == Success(mobile)
  {
    PutThenGet(data, "complaint_details", message, "name");
    PutThenGet(data, "complaint_details", message, "mobile");
  }

  /** A fresh id inserts exactly the row for the collected fields. */
  lemma FreshIdRow(t: Tables, digits: SixDigits, name: string, mobile: string, details: string, now: nat)
    requires !HasComplaintId(t.grievances, "GRV" + digits)
    ensures var r := RegisterGrievance(t, digits, name, mobile, details, now);
      && r.Success? && r.value.complaintId == "GRV" + digits
      && r.value.tables.knowledge == t.knowledge
      && r.value.tables.grievances ==
           t.grievances + [Grievance("GRV" + digits, name, mobile, details, Submitted, now, now)]
  {
    var r := RegisterGrievance(t, digits, name, mobile, details, now);
    var gs := r.value.tables.grievances;
    assert gs == gs[..|t.grievances|] + [gs[|t.grievances|]];
  }

  /** Long enough details register the complaint: one row with the collected
      name and mobile and the message as typed, the session reset to an
      empty initial one, and the turn reports the registration. */
  lemma DetailsRegister(t: Tables, sid: string, data: Dict, message: string, out: Outside,
                        name: string, mobile: string)
    requires Sees(t, sid, data, Some(CollectingComplaint))
    requires |Strip(message)| > 10
    requires Get(data, "name") == Some(name) && Get(data, "mobile") == Some(mobile)
    requires !HasComplaintId(t.grievances, "GRV" + out.digits)
    ensures var r := ProcessMessage(t, sid, message, out);
      && r.Success? && r.value.registered
      && r.value.response == RegisteredAs("GRV" + out.digits)
      && r.value.tables.grievances ==
           t.grievances + [Grievance("GRV" + out.digits, name, mobile, message, Submitted, out.now, out.now)]
      && r.value.tables.knowledge == t.knowledge
      && Sees(r.value.tables, sid, [], Some(Initial))
  {
    DetailsTurn(t, sid, data, message, out, name, mobile);
    FreshIdRow(t, out.digits, name, mobile, message, out.now);
    var reg := RegisterGrievance(t, out.digits, name, mobile, message, out.now).value;
    SessionRoundTrip(reg.tables, sid, [], Initial, out.now);
  }

  lemma DetailsTurn(t: Tables, sid: string, data: Dict, message: string, out: Outside,
                    name: string, mobile: string)
    requires Sees(t, sid, data, Some(CollectingComplaint))
    requires |Strip(message)| > 10
    requires Get(data, "name") == Some(name) && Get(data, "mobile") == Some(mobile)
    requires !HasComplaintId(t.grievances, "GRV" + out.digits)
    ensures var reg := RegisterGrievance(t, out.digits, name, mobile, message, out.now);
      && reg.Success? && reg.value.complaintId == "GRV" + out.digits
      && ProcessMessage(t, sid, message, out) ==
         Success(Turn(UpdateChatSession(reg.value.tables, sid, [], Initial, out.now),
                      RegisteredAs(reg.value.complaintId), true))
  {
    TurnFromSession(t, sid, data, Some(CollectingComplaint), message, out);
    DispatchDetails(t, sid, data, message, out);
    CollectedFields(data, message, name, mobile);
    FreshIdRow(t, out.digits, name, mobile, message, out.now);
    var reg := RegisterGrievance(t, out.digits, name, mobile, message, out.now).value;
    LongDetails(t, sid, data, message, out, name, mobile, reg);
  }

  /** Any step the chain does not know (`completed`, NULL, anything else)
      goes back to the initial step and answers through the knowledge base. */
  lemma UnknownStepResets(t: Tables, sid: string, data: Dict, step: Option<string>, message: string,
                          out: Outside)
    requires Sees(t, sid, data, step)
    requires StepOf(step) == Elsewhere
    ensures var r := ProcessMessage(t, sid, message, out);
      Stays(t, r, sid, data, Initial) && r.value.response == RagResponse(t.knowledge, message, out.llm)
  {
    TurnFromSession(t, sid, data, step, message, out);
    SavedSees(t, sid, data, Initial, RagResponse(t.knowledge, message, out.llm), out.now);
  }

  /** `completed` is one of those steps. */
  lemma CompletedIsUnknown()
    ensures StepOf(Some(Completed)) == Elsewhere
  {
  }

  // ---------------------------------------------------------------------------
  // The whole registration
  // ---------------------------------------------------------------------------

  /** A session id with no row reads as a fresh initial session. */
  lemma FreshSees(t: Tables, sid: string)
    requires forall row :: row in t.sessions ==> row.sessionId != sid
    ensures Sees(t, sid, [], Some(Initial))
  {
  }

  /** The data collected by the name and mobile steps. */
  function Collected(name: string, mobile: string): Dict {
    Put(Put([], "name", name), "mobile", mobile)
  }

  lemma CollectedHas(name: string, mobile: string)
    ensures Get(Collected(name, mobile), "name") == Some(name)
    ensures Get(Collected(name, mobile), "mobile") == Some(mobile)
  {
    PutThenGet([], "name", name, "name");
    PutThenGet(Put([], "name", name), "mobile", mobile, "mobile");
    PutThenGet(Put([], "name", name), "mobile", mobile, "name");
  }

  /** The first three messages of a registration: a complaint intent, a
      name, a mobile number. Each answers with the next question, registers
      nothing, and leaves the session one step further on. */
  lemma CollectThree(t: Tables, sid: string, m1: string, m2: string, m3: string,
                     o1: Outside, o2: Outside, o3: Outside, name: string, mobile: string)
    requires Sees(t, sid, [], Some(Initial))
    requires AnalyzeIntent(m1) == RegisterComplaint
    requires ExtractName(m2) == Some(name)
    requires ExtractMobile(m3) == Some(mobile)
    ensures var r1 := ProcessMessage(t, sid, m1, o1);
      && Stays(t, r1, sid, [], CollectingName) && r1.value.response == AskName
      && var r2 := ProcessMessage(r1.value.tables, sid, m2, o2);
      && Stays(r1.value.tables, r2, sid, Put([], "name", name), CollectingMobile)
      && r2.value.response == ThankName(name)
      && var r3 := ProcessMessage(r2.value.tables, sid, m3, o3);
      && Stays(r2.value.tables, r3, sid, Collected(name, mobile), CollectingComplaint)
      && r3.value.response == AskDetails
  {
    InitialRegisterIntent(t, sid, [], m1, o1);
    var t1 := ProcessMessage(t, sid, m1, o1).value.tables;
    NameAccepted(t1, sid, [], m2, o2, name);
    var t2 := ProcessMessage(t1, sid, m2, o2).value.tables;
    MobileAccepted(t2, sid, Put([], "name", name), m3, o3, mobile);
  }

  /** The conversation the chatbot is built for, from a session id it has
      never seen: four messages register exactly one complaint carrying the
      name, the mobile number and the details as typed, only the last turn
      reports it, and the session is back to an empty initial one. */
  lemma RegistrationConversation(t: Tables, sid: string, m1: string, m2: string, m3: string,
                                 m4: string, o1: Outside, o2: Outside, o3: Outside, o4: Outside,
                                 name: string, mobile: string)
    requires forall row :: row in t.sessions ==> row.sessionId != sid
    requires AnalyzeIntent(m1) == RegisterComplaint
    requires ExtractName(m2) == Some(name)
    requires ExtractMobile(m3) == Some(mobile)
    requires |Strip(m4)| > 10
    requires !HasComplaintId(t.grievances, "GRV" + o4.digits)
    ensures var r1 := ProcessMessage(t, sid, m1, o1);
      && r1.Success? && !r1.value.registered
      && var r2 := ProcessMessage(r1.value.tables, sid, m2, o2);
      && r2.Success? && !r2.value.registered
      && var r3 := ProcessMessage(r2.value.tables, sid, m3, o3);
      && r3.Success? && !r3.value.registered
      && var r4 := ProcessMessage(r3.value.tables, sid, m4, o4);
      && r4.Success? && r4.value.registered
      && r4.value.response == RegisteredAs("GRV" + o4.digits)
      && r4.value.tables.grievances ==
           t.grievances + [Grievance("GRV" + o4.digits, name, mobile, m4, Submitted, o4.now, o4.now)]
      && r4.value.tables.knowledge == t.knowledge
      && Sees(r4.value.tables, sid, [], Some(Initial))
  {
    FreshSees(t, sid);
    CollectThree(t, sid, m1, m2, m3, o1, o2, o3, name, mobile);
    var t1 := ProcessMessage(t, sid, m1, o1).value.tables;
    var t2 := ProcessMessage(t1, sid, m2, o2).value.tables;
    var t3 := ProcessMessage(t2, sid, m3, o3).value.tables;
    CollectedHas(name, mobile);
    DetailsRegister(t3, sid, Collected(name, mobile), m4, o4, name, mobile);
  }

  // ---------------------------------------------------------------------------
  // The invariant of the saved sessions
  // ---------------------------------------------------------------------------

  /** The fields a step relies on: the mobile step has a name, the details
      step has a name and a mobile. */
  predicate StepNeeds(step: string, data: Dict) {
    && (step == CollectingMobile ==> "name" in Keys(data))
    && (step == CollectingComplaint ==> "name" in Keys(data) && "mobile" in Keys(data))
  }

  /** A stored session decodes, and holds what its step relies on. */
  predicate RowReady(row: SessionRow) {
    match LoadUserData(row.userData)
    case Failure(_) => false
    case Success(d) => row.currentStep.Some? ==> StepNeeds(row.currentStep.value, d)
  }

  /** The invariant of the tables between turns. */
  predicate Ready(t: Tables) {
    Valid(t) && forall row :: row in t.sessions ==> RowReady(row)
  }

  /** Every session loads, and what it loads meets its step's needs. */
  lemma ReadyLoad(t: Tables, sid: string)
    requires Ready(t)
    ensures Load(t, sid).Success?
    ensures var v := Load(t, sid).value; v.step.Some? ==> StepNeeds(v.step.value, v.data)
  {
    match FindSession(t.sessions, sid)
    case None =>
    case Some(row) =>
      assert RowReady(row);
  }

  /** The initial tables of a deployment are ready. */
  lemma EmptyReady(kb: seq<Knowledge.KbRow>)
    ensures Ready(Tables([], [], kb))
  {
  }

  /** Saving data that meets the step's needs keeps the tables ready. */
  lemma SavedReady(t: Tables, sid: string, data: Dict, step: string, reply: Reply, now: nat)
    requires Ready(t) && StepNeeds(step, data)
    ensures Ready(Save(t, sid, data, step, reply, now).tables)
  {
    UpdateReady(t, sid, data, step, now);
  }

  lemma UpdateReady(t: Tables, sid: string, data: Dict, step: string, now: nat)
    requires Ready(t) && StepNeeds(step, data)
    ensures Ready(UpdateChatSession(t, sid, data, step, now))
  {
    var u := UpdateChatSession(t, sid, data, step, now);
    UpdateKeepsValid(t, sid, data, step, now);
    var text := Json.EncodeDict(data);
    Json.DecodeEncode(data);
    assert LoadUserData(Some(text)) == Success(data);
    forall row | row in u.sessions ensures RowReady(row) {
      if row.sessionId != sid {
        assert row in t.sessions;
      } else {
        var k :| 0 <= k < |u.sessions| && u.sessions[k] == row;
        assert k == |u.sessions| - 1;
        assert row == SessionRow(sid, Some(text), Some(step), now, now);
      }
    }
  }

  lemma InitialReady(t: Tables, sid: string, data: Dict, message: string, out: Outside)
    requires Ready(t)
    ensures Ready(FromInitial(t, sid, data, message, out).tables)
  {
    match AnalyzeIntent(message)
    case RegisterComplaint => SavedReady(t, sid, data, CollectingName, AskName, out.now);
    case CheckStatus => SavedReady(t, sid, data, Initial, StatusAnswer(t, message), out.now);
    case General => SavedReady(t, sid, data, Initial, RagResponse(t.knowledge, message, out.llm), out.now);
  }

  lemma NameReady(t: Tables, sid: string, data: Dict, message: string, now: nat)
    requires Ready(t)
    ensures Ready(FromName(t, sid, data, message, now).tables)
  {
    match ExtractName(message)
    case Some(name) =>
      assert "name" in Keys(Put(data, "name", name));
      SavedReady(t, sid, Put(data, "name", name), CollectingMobile, ThankName(name), now);
    case None => SavedReady(t, sid, data, CollectingName, InvalidName, now);
  }

  lemma MobileReady(t: Tables, sid: string, data: Dict, message: string, now: nat)
    requires Ready(t) && StepNeeds(CollectingMobile, data)
    ensures Ready(FromMobile(t, sid, data, message, now).tables)
  {
    match ExtractMobile(message)
    case Some(mobile) =>
      var data' := Put(data, "mobile", mobile);
      assert "name" in Keys(data') && "mobile" in Keys(data');
      SavedReady(t, sid, data', CollectingComplaint, AskDetails, now);
    case None => SavedReady(t, sid, data, CollectingMobile, InvalidMobile, now);
  }

  /** Registering a grievance does not touch the sessions. */
  lemma RegisteredReady(t: Tables, digits: SixDigits, name: string, mobile: string,
                        details: string, now: nat)
    requires Ready(t)
    ensures var r := RegisterGrievance(t, digits, name, mobile, details, now);
      r.Success? ==> Ready(r.value.tables)
  {
    RegisterKeepsValid(t, digits, name, mobile, details, now);
  }

  lemma ComplaintReady(t: Tables, sid: string, data: Dict, message: string, out: Outside)
    requires Ready(t) && StepNeeds(CollectingComplaint, data)
    ensures var r := FromComplaint(t, sid, data, message, out);
      && (r.Failure? ==> r.error == DuplicateComplaintId)
      && (r.Success? ==> Ready(r.value.tables))
  {
    if |Strip(message)| > 10 {
      var data' := Put(data, "complaint_details", message);
      assert "name" in Keys(data') && "mobile" in Keys(data');
      var name := Lookup(data', "name").value;
      var mobile := Lookup(data', "mobile").value;
      RegisteredReady(t, out.digits, name, mobile, message, out.now);
      var reg := RegisterGrievance(t, out.digits, name, mobile, message, out.now);
      if reg.Success? {
        LongDetails(t, sid, data, message, out, name, mobile, reg.value);
        UpdateReady(reg.value.tables, sid, [], Initial, out.now);
      } else {
        IdTaken(t, sid, data, message, out, name, mobile);
      }
    } else {
      ShortDetails(t, sid, data, message, out);
      SavedReady(t, sid, data, CollectingComplaint, TooShort, out.now);
    }
  }

  /** A taken complaint id makes the details step raise. */
  lemma IdTaken(t: Tables, sid: string, data: Dict, message: string, out: Outside,
                name: string, mobile: string)
    requires |Strip(message)| > 10
    requires Lookup(Put(data, "complaint_details", message), "name") == Success(name)
    requires Lookup(Put(data, "complaint_details", message), "mobile") == Success(mobile)
    requires RegisterGrievance(t, out.digits, name, mobile, message, out.now).Failure?
    ensures FromComplaint(t, sid, data, message, out) == Failure(DuplicateComplaintId)
  {
  }

  /** Every turn keeps the tables ready, and from ready tables the only
      exception a turn can raise is a complaint id that is already taken:
      the `KeyError` and the JSON decoding error cannot happen. */
  lemma TurnKeepsReady(t: Tables, sid: string, message: string, out: Outside)
    requires Ready(t)
    ensures var r := ProcessMessage(t, sid, message, out);
      && (r.Failure? ==> r.error == DuplicateComplaintId)
      && (r.Success? ==> Ready(r.value.tables))
  {
    ReadyLoad(t, sid);
    var v := Load(t, sid).value;
    TurnFromSession(t, sid, v.data, v.step, message, out);
    match StepOf(v.step)
    case AtInitial => InitialReady(t, sid, v.data, message, out);
    case AtName => NameReady(t, sid, v.data, message, out.now);
    case AtMobile => MobileReady(t, sid, v.data, message, out.now);
    case AtComplaint => ComplaintReady(t, sid, v.data, message, out);
    case Elsewhere =>
      SavedReady(t, sid, v.data, Initial, RagResponse(t.knowledge, message, out.llm), out.now);
  }
}
