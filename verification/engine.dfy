/** `GrievanceChatbot.process_message`: one turn of the conversation. The
    session is loaded (or defaulted), the current step decides what the
    message means, and the new step and `user_data` are saved. The hosted
    model is the parameter `llm`, which answers or fails. */
module Engine {
  import opened Wrappers
  import opened Text
  import opened Dicts
  import opened Extract
  import opened Store
  import Knowledge

  // ---------------------------------------------------------------------------
  // Steps
  // ---------------------------------------------------------------------------

  const Initial := "initial"
  const CollectingName := "collecting_name"
  const CollectingMobile := "collecting_mobile"
  const CollectingComplaint := "collecting_complaint"
  const Completed := "completed"

  /** How `process_message` reads a stored step: one of the four it tests
      for, or anything else (`completed`, NULL, an unknown string). */
  datatype Step = AtInitial | AtName | AtMobile | AtComplaint | Elsewhere

  function StepOf(step: Option<string>): (s: Step)
    ensures step == Some(Initial) <==> s == AtInitial
    ensures step == Some(CollectingName) <==> s == AtName
    ensures step == Some(CollectingMobile) <==> s == AtMobile
    ensures step == Some(CollectingComplaint) <==> s == AtComplaint
  {
    if step == Some(Initial) then AtInitial
    else if step == Some(CollectingName) then AtName
    else if step == Some(CollectingMobile) then AtMobile
    else if step == Some(CollectingComplaint) then AtComplaint
    else Elsewhere
  }

  // ---------------------------------------------------------------------------
  // Replies
  // ---------------------------------------------------------------------------

  /** The replies a turn can give, by kind; `Wording` spells each one out. */
  datatype Reply =
    | AskName
    | StatusOf(info: StatusInfo)
    | NoComplaintForMobile
    | AskIdOrMobile
    | ThankName(name: string)
    | InvalidName
    | AskDetails
    | InvalidMobile
    | RegisteredAs(complaintId: string)
    | TooShort
    | Answer(text: string)
    | Apology

  /** The exact text the chatbot sends for each reply. */
  function Wording(r: Reply): string {
    match r
    case AskName =>
      "I'll help you register your complaint. First, could you please provide your full name?"
    case StatusOf(info) =>
      "Your complaint " + info.complaintId + " is currently: " + info.status
    case NoComplaintForMobile =>
      "I couldn't find any complaints associated with that mobile number. Could you provide your complaint ID?"
    case AskIdOrMobile =>
      "To check your complaint status, please provide your complaint ID or the mobile number used during registration."
    case ThankName(name) =>
      "Thank you, " + name + ". Now, please provide your mobile number."
    case InvalidName =>
      "Please provide a valid name (letters only, up to 4 words)."
    case AskDetails =>
      "Great! Now, please describe your complaint or issue in detail."
    case InvalidMobile =>
      "Please provide a valid 10-digit mobile number."
    case RegisteredAs(id) =>
      "Your complaint has been registered successfully!\n\nComplaint ID: " + id +
      "\n\nYou can use this ID to check the status of your complaint. We'll work on resolving your issue as soon as possible."
    case TooShort =>
      "Please provide a detailed description of your complaint (at least 10 characters)."
    case Answer(text) => text
    case Apology =>
      "I apologize, but I'm having trouble processing your request right now. Please try again."
  }

  // ---------------------------------------------------------------------------
  // get_rag_response
  // ---------------------------------------------------------------------------

  /** `get_rag_response(query)`: search the knowledge base with the whole
      message and hand the rows found and the message to the model; a failed
      call is answered with an apology. The prompt text wrapped around the
      rows and the query is fixed, so the model is given those two directly. */
  function RagResponse(kb: seq<Knowledge.KbRow>, query: string,
                       llm: (seq<Knowledge.KbRow>, string) -> Option<string>): Reply
  {
    match llm(Knowledge.Search(kb, query), query)
    case None => Apology
    case Some(text) => Answer(text)
  }

  // ---------------------------------------------------------------------------
  // process_message
  // ---------------------------------------------------------------------------

  /** What a turn returns: the tables after it, the reply, and whether a
      complaint was registered. */
  datatype Turn = Turn(tables: Tables, response: Reply, registered: bool)

  /** The world outside the tables that a turn may consult. */
  datatype Outside = Outside(llm: (seq<Knowledge.KbRow>, string) -> Option<string>, digits: SixDigits, now: nat)

  /** `user_data[key]`, which raises `KeyError` when the key is missing. */
  function Lookup(d: Dict, key: string): (r: Result<string, Fault>)
    ensures r.Success? <==> key in Keys(d)
    ensures r.Success? ==> Get(d, key) == Some(r.value)
    ensures r.Failure? ==> r.error == MissingField(key)
  {
    match IndexOf(d, key)
    case None => Failure(MissingField(key))
    case Some(i) => Success(d[i].value)
  }

  /** The common ending of a turn: save the session and report no registration. */
  function Save(t: Tables, sid: string, data: Dict, step: string, reply: Reply, now: nat): (r: Turn)
    ensures !r.registered && r.response == reply
    ensures r.tables.grievances == t.grievances && r.tables.knowledge == t.knowledge
  {
    Turn(UpdateChatSession(t, sid, data, step, now), reply, false)
  }

  /** The reply to a status question in the initial step. */
  function StatusAnswer(t: Tables, message: string): Reply {
    match ExtractMobile(message)
    case None => AskIdOrMobile
    case Some(mobile) =>
      match GetGrievanceStatus(t, None, Some(mobile))
      case None => NoComplaintForMobile
      case Some(info) => StatusOf(info)
  }

  /** The initial step: classify the message and answer it. */
  function FromInitial(t: Tables, sid: string, data: Dict, message: string, out: Outside): (r: Turn)
    ensures !r.registered && r.tables.grievances == t.grievances && r.tables.knowledge == t.knowledge
  {
    match AnalyzeIntent(message)
    case RegisterComplaint => Save(t, sid, data, CollectingName, AskName, out.now)
    case CheckStatus => Save(t, sid, data, Initial, StatusAnswer(t, message), out.now)
    case General => Save(t, sid, data, Initial, RagResponse(t.knowledge, message, out.llm), out.now)
  }

  function FromName(t: Tables, sid: string, data: Dict, message: string, now: nat): (r: Turn)
    ensures !r.registered && r.tables.grievances == t.grievances && r.tables.knowledge == t.knowledge
  {
    match ExtractName(message)
    case Some(name) => Save(t, sid, Put(data, "name", name), CollectingMobile, ThankName(name), now)
    case None => Save(t, sid, data, CollectingName, InvalidName, now)
  }

  function FromMobile(t: Tables, sid: string, data: Dict, message: string, now: nat): (r: Turn)
    ensures !r.registered && r.tables.grievances == t.grievances && r.tables.knowledge == t.knowledge
  {
    match ExtractMobile(message)
    case Some(mobile) => Save(t, sid, Put(data, "mobile", mobile), CollectingComplaint, AskDetails, now)
    case None => Save(t, sid, data, CollectingMobile, InvalidMobile, now)
  }

  /** The details step: a long enough message registers the complaint with
      the collected name and mobile and resets the session. */
  function FromComplaint(t: Tables, sid: string, data: Dict, message: string, out: Outside)
    : (r: Result<Turn, Fault>)
    ensures r.Success? ==> r.value.tables.knowledge == t.knowledge
    ensures r.Success? && !r.value.registered ==> r.value.tables.grievances == t.grievances
    ensures r.Success? && r.value.registered ==>
      |r.value.tables.grievances| == |t.grievances| + 1 &&
      r.value.tables.grievances[..|t.grievances|] == t.grievances
  {
    if |Strip(message)| > 10 then
      var data' := Put(data, "complaint_details", message);
      var name :- Lookup(data', "name");
      var mobile :- Lookup(data', "mobile");
      var reg :- RegisterGrievance(t, out.digits, name, mobile, message, out.now);
      var u := UpdateChatSession(reg.tables, sid, [], Initial, out.now);
      Success(Turn(u, RegisteredAs(reg.complaintId), true))
    else
      Success(Save(t, sid, data, CollectingComplaint, TooShort, out.now))
  }

  /** The turn once the session is known. */
  function Dispatch(t: Tables, sid: string, data: Dict, step: Option<string>, message: string,
                    out: Outside): (r: Result<Turn, Fault>)
    ensures r.Success? ==> r.value.tables.knowledge == t.knowledge
    ensures r.Success? && !r.value.registered ==> r.value.tables.grievances == t.grievances
    ensures r.Success? && r.value.registered ==>
      |r.value.tables.grievances| == |t.grievances| + 1 &&
      r.value.tables.grievances[..|t.grievances|] == t.grievances
  {
    match StepOf(step)
    case AtInitial => Success(FromInitial(t, sid, data, message, out))
    case AtName => Success(FromName(t, sid, data, message, out.now))
    case AtMobile => Success(FromMobile(t, sid, data, message, out.now))
    case AtComplaint => FromComplaint(t, sid, data, message, out)
    case Elsewhere => Success(Save(t, sid, data, Initial, RagResponse(t.knowledge, message, out.llm), out.now))
  }

  /** `get_complaint_status_by_id(complaint_id)`: the status lookup by id
      alone; an empty id finds nothing. */
  function ComplaintStatusById(t: Tables, complaintId: string): (r: Option<StatusInfo>)
    ensures complaintId == "" ==> r.None?
    ensures complaintId != "" ==> (r.Some? <==> HasComplaintId(t.grievances, complaintId))
    ensures r.Some? ==> exists g :: g in t.grievances && g.complaintId == complaintId && r.value == InfoOf(g)
  {
    GetGrievanceStatus(t, Some(complaintId), None)
  }

  /** What a turn starts from: the session's data and step. */
  datatype View = View(data: Dict, step: Option<string>)

  /** How a turn starts: the stored session, or an empty one in the
      initial step when `sid` has no row. */
  function Load(t: Tables, sid: string): (r: Result<View, Fault>)
    ensures r.Failure? <==> GetChatSession(t, sid).Failure?
    ensures GetChatSession(t, sid) == Success(None) ==> r == Success(View([], Some(Initial)))
    ensures GetChatSession(t, sid).Success? && GetChatSession(t, sid).value.Some? ==>
      var s := GetChatSession(t, sid).value.value;
      r == Success(View(s.userData, s.currentStep))
  {
    var session :- GetChatSession(t, sid);
    match session
    case None => Success(View([], Some(Initial)))
    case Some(s) => Success(View(s.userData, s.currentStep))
  }

  /** `process_message(session_id, message)`. A raised exception is a
      `Failure`; nothing is written then. */
  function ProcessMessage(t: Tables, sid: string, message: string, out: Outside)
    : (r: Result<Turn, Fault>)
    ensures r.Success? ==> r.value.tables.knowledge == t.knowledge
    ensures r.Success? && !r.value.registered ==> r.value.tables.grievances == t.grievances
    ensures r.Success? && r.value.registered ==>
      |r.value.tables.grievances| == |t.grievances| + 1 &&
      r.value.tables.grievances[..|t.grievances|] == t.grievances
  {
    var view :- Load(t, sid);
    Dispatch(t, sid, view.data, view.step, message, out)
  }
}
