# Grievance chatbot: a Dafny model of its conversation engine and record store

The system is a customer-service chatbot for registering and tracking
grievances. Each user message goes through `GrievanceChatbot.process_message`.
That function loads the user's chat session, reads the session's current step
(`initial`, `collecting_name`, `collecting_mobile`, `collecting_complaint`,
`completed`) and acts on the message:

- in `initial` it classifies the intent by keywords and starts a registration,
  answers a status question, or asks the knowledge-base-backed language model;
- in the collecting steps it extracts a name or an Indian mobile number, or
  takes the complaint details and registers the complaint.

It then saves the session and returns the reply and whether a complaint was
registered. `DatabaseManager` keeps three SQLite tables: grievances, chat
sessions and a knowledge base of question/answer rows.

The model is functional. The tables are a `Tables` datatype with one row
sequence per table, in rowid order. Every store operation is a pure function
from tables to tables. An exception (a duplicate complaint id, a `KeyError` on
`user_data`, undecodable JSON) is a `Failure`, and then nothing is written.
`process_message` is `Engine.ProcessMessage(tables, sid, message, out)`. `out`
holds the three things the code gets from outside:

- the language model, as a function from the retrieved rows and the query to
  an answer, or to nothing when the call fails;
- the six random complaint-id digits;
- the current timestamp.

Modules:

- `Wrappers`: `Option` and `Result`.
- `Text`: the Python `str` operations the code uses (`lower`, `in`, `strip`,
  `split`, `title`, `replace(' ', '')`, `isalpha`).
- `Dicts`: `user_data` as an insertion-ordered dict.
- `Json`: `json.dumps`/`json.loads` for that dict.
- `Extract`: `analyze_intent` and the two branches of `extract_info_from_message`.
- `Knowledge`: the seed rows, SQLite `LIKE` and `search_knowledge_base`.
- `Store`: the `DatabaseManager` operations.
- `Engine`: `process_message`.
- `Conversation`: what the turns do one by one and over a whole
  registration, and the invariant the saved sessions keep.

Two details of the code that the model keeps as written:

- Complaint details are accepted when their stripped length is strictly more
  than 10. The reply to shorter details says "at least 10 characters".
- Inserting a complaint whose id is already taken is a `Failure`. The
  exception is not caught, so nothing is saved: neither the grievance nor the
  session.

## Model

| member | source | states |
|---|---|---|
| Extract.AnalyzeIntent | rag_chatbot.py:44-57 | The intent is a complaint exactly when the lower-cased message contains a complaint keyword, even if it also has a status keyword. It is a status question exactly when it has a status keyword and no complaint keyword, and general exactly when it has neither. |
| Extract.IntentIgnoresCase | rag_chatbot.py:46-57 | Lower-casing the message first does not change its intent. |
| Extract.AnyIn | rag_chatbot.py:52-54 | Trying the keywords in order finds one exactly when some keyword occurs in the text. |
| Text.Occurs | rag_chatbot.py:52 | The left-to-right scan for `keyword in text` agrees with "occurs at some index". |
| Text.Lower | rag_chatbot.py:46 | `lower()` on ASCII text: each upper-case letter becomes its lower-case letter (code plus 32), and every other character is kept. |
| Text.LowerIdempotent | rag_chatbot.py:46 | Lower-casing twice is lower-casing once. |
| Extract.SepThenCore | rag_chatbot.py:63 | `[\s-]?[6-9]\d{9}` at a position: a match is a ten-digit core starting 6-9, after at most one separator. No match means there is neither a core at that position nor a separator followed by a core. |
| Extract.MatchAt | rag_chatbot.py:63-64 | A match anchored at `i` consists of a group text (`+91`, `91` or nothing), an optional separator and a core. A core at `i` always gives a match. |
| Extract.MatchAtPrefers | rag_chatbot.py:63-64 | The group's alternatives are tried as `+91`, then `91`, then empty: whenever some alternative matches at `i`, a match is found there with a group at least as long. No match at `i` means no alternative matches there. |
| Extract.Search | rag_chatbot.py:64 | `re.search` returns the leftmost match: no match starts earlier, and no result means no position matches. |
| Extract.DigitsOnly | rag_chatbot.py:66 | `re.sub(r'[^\d]', '', text)` keeps exactly the digits of the text. |
| Extract.DigitsOnlyAppend | rag_chatbot.py:66 | Removing non-digits distributes over concatenation. |
| Extract.MatchDigits | rag_chatbot.py:64-66 | The digits of a matched text are the core, or `91` followed by the core. |
| Extract.NormalizeCore | rag_chatbot.py:67-70 | Ten digits are kept, and twelve digits that start with `91` lose the prefix; both give the core. |
| Extract.ExtractMobile | rag_chatbot.py:61-70 | A returned mobile is ten digits starting 6-9 and is a slice of the message. A mobile is returned exactly when the message contains `[6-9]\d{9}` somewhere. |
| Extract.ExtractFound | rag_chatbot.py:64-70 | Once the search finds a match, the mobile returned is that match's core. |
| Extract.MobileIdempotent | rag_chatbot.py:61-70 | A valid stored mobile number extracts to itself. |
| Extract.CountryCodeStripped | rag_chatbot.py:63-70 | `+91` or `91`, then at most one space or dash, then a valid number: the message extracts to the number without the country code. |
| Extract.CodedSearch | rag_chatbot.py:63-64 | The search for such a message matches at its first character, with the country code as the group. |
| Extract.ShortMessageNoMobile | rag_chatbot.py:63-70 | A message shorter than ten characters yields no mobile. |
| Text.Strip | rag_chatbot.py:75 | `strip()` is no longer than its input and neither starts nor ends with whitespace. |
| Text.StripIsInnerSlice | rag_chatbot.py:75 | `strip()` returns a slice of the input with only whitespace before and after it. |
| Text.StripStripped | rag_chatbot.py:75 | A string without whitespace at either end is its own strip. |
| Text.WordsAreWords | rag_chatbot.py:76 | Every word `split()` returns is non-empty and holds no whitespace. |
| Text.WordsCount | rag_chatbot.py:76 | `split()` returns as many words as there are positions where a run of non-whitespace begins: a non-whitespace character at the start or after whitespace. |
| Text.LeadingWord | rag_chatbot.py:76 | The first word of a string that starts with non-whitespace is its maximal leading run of non-whitespace, and the rest of the words are those of what follows the run. |
| Text.WordsSameSpaces | rag_chatbot.py:76 | The number of words depends only on where the whitespace is. |
| Text.AlphaApartFromSpaces | rag_chatbot.py:76 | `s.replace(' ', '').isalpha()` holds exactly when `s` is letters and spaces with at least one letter. |
| Text.TitleAt | rag_chatbot.py:77 | `title()` keeps each character up to case and leaves non-letters alone. A letter is upper case at the start of a run of letters and lower case inside one. |
| Text.TitleKeepsClasses | rag_chatbot.py:77 | `title()` keeps whitespace and letters where they were. |
| Text.TitleIdempotent | rag_chatbot.py:77 | Title-casing twice is title-casing once. |
| Extract.ExtractName | rag_chatbot.py:72-77 | A name is returned exactly when the stripped message has at most four words and is letters and spaces with a letter. The name is `title()` of the stripped message: letters and spaces, capital first, the same letters. |
| Extract.NameWithDigitRefused | rag_chatbot.py:75-76 | A message with a digit in it, once stripped, yields no name. |
| Extract.NameIdempotent | rag_chatbot.py:72-77 | An accepted name, sent again, is accepted unchanged. |
| Dicts.Put | rag_chatbot.py:152 | Assigning `user_data[key]` adds the key, overwriting in place when the key exists and appending otherwise. |
| Dicts.PutThenGet | rag_chatbot.py:152-169 | After assigning a key, reading it gives the new value, and every other key reads as before. |
| Json.DecodeEncode | dbmanager.py:136-150 | `json.loads(json.dumps(user_data))` gives back the same dict. |
| Knowledge.Populate | dbmanager.py:56-78 | An empty knowledge base gets the five seed rows, and a non-empty one is left as it is. |
| Knowledge.PopulateIdempotent | dbmanager.py:69-78 | Seeding a second time adds nothing. |
| Knowledge.LikePrefix | dbmanager.py:161-168 | A literal followed by `%` matches exactly the texts that start with the literal, ignoring ASCII case. |
| Knowledge.LikeSuffix | dbmanager.py:161-168 | A leading `%` lets the rest of the pattern match any suffix. |
| Knowledge.LikeContains | dbmanager.py:161-168 | For a query without wildcards, `text LIKE '%query%'` holds exactly when the text contains the query, ignoring ASCII case. |
| Knowledge.RankedRows | dbmanager.py:162-166 | The rows of one rank are exactly the table's rows with that rank. |
| Knowledge.RankedCount | dbmanager.py:159-166 | Counting copies: the rows of one rank hold every copy the table has of each row with that rank, and none of any other row. |
| Knowledge.Search | dbmanager.py:155-171 | At most three rows are returned, each from the table and matching in its question or answer. They come in rank order, with question matches first. A matching row is left out only when three rows of no worse rank were returned. The same holds counting copies: fewer copies of a matching row are returned than the table holds only when three rows of no worse rank were returned. No row is returned more often than the table holds it. |
| Knowledge.RanksApart | dbmanager.py:159-166 | The question matches and the answer matches together hold each row at most as often as the table does. |
| Knowledge.GroupedRanks | dbmanager.py:162-166 | The rows sorted by rank hold every question match before every answer match. |
| Knowledge.TopInOrder | dbmanager.py:159-167 | The first rows of that order all match and come in non-decreasing rank. |
| Knowledge.TopIsComplete | dbmanager.py:159-167 | Cutting that order at three leaves out a matching row only when three rows of no worse rank were kept. |
| Knowledge.TopIsCompleteCounted | dbmanager.py:159-167 | The same, counting copies: fewer copies of a matching row are kept than the table holds only when three rows of no worse rank were kept. |
| Knowledge.TopOnce | dbmanager.py:159-167 | The kept rows hold each row at most as often as the table does. |
| Knowledge.SearchContains | dbmanager.py:159-168 | For a query without wildcards, every row returned contains the query in its question or its answer. |
| Store.RegisterGrievance | dbmanager.py:80-96 | The insert fails exactly when the id `GRV` + six digits is taken. Otherwise that id is returned and one row is appended with the given fields and status `Submitted`, leaving every other row and table unchanged. |
| Store.RegisterKeepsValid | dbmanager.py:20 | Registration keeps complaint ids unique. |
| Store.ById | dbmanager.py:103-107 | The lookup by id finds a row exactly when one has that id, and returns a row with it. |
| Store.Latest | dbmanager.py:108-113 | The lookup by mobile finds a row exactly when one has that mobile. It returns one whose `created_at` is the greatest among those. |
| Store.GetGrievanceStatus | dbmanager.py:98-127 | A non-empty id wins over the mobile, and with neither the answer is None. A hit reports that row's id, name, status and timestamps; a miss is None. |
| Store.RegisterThenStatus | dbmanager.py:86-107 | A complaint just registered is found by its id with status `Submitted`. |
| Store.UpdateChatSession | dbmanager.py:129-137 | Upserting a session keeps every other session's row and adds none. It leaves exactly one row for the id, the last one, and leaves the other tables unchanged. |
| Store.UpdateKeepsValid | dbmanager.py:34 | Upserting keeps session ids unique. |
| Store.FindSession | dbmanager.py:143-146 | The lookup finds a row exactly when one has the id, and returns a row with that id. |
| Store.LoadUserData | dbmanager.py:150 | NULL or empty `user_data` reads as `{}`. Other text loads exactly when it decodes as a JSON object whose values are strings. |
| Store.GetChatSession | dbmanager.py:139-153 | An absent id gives None. For a present id, the read fails exactly when the row's `user_data` does not decode. Otherwise it gives that decoded data and the row's step. |
| Store.StoredDataLoads | dbmanager.py:136-150 | Data stored by the upsert loads back unchanged. |
| Store.SessionRoundTrip | dbmanager.py:129-153 | Upserting a session and then reading it gives back the same `user_data` and step. |
| Store.SessionsIndependent | dbmanager.py:129-153 | Upserting one session leaves every other session reading as before. |
| Store.PopulateKnowledgeBase | dbmanager.py:56-78 | Seeding changes only the knowledge table, leaves it non-empty, and changes nothing when it was already populated. |
| Store.PopulateTwice | dbmanager.py:56-78 | Seeding at every start-up never duplicates the seed rows. |
| Engine.StepOf | rag_chatbot.py:17-23 | A stored step is read as one of the four steps the engine tests for exactly when it equals that step's string. |
| Engine.Lookup | rag_chatbot.py:173-175 | `user_data[key]` succeeds exactly when the key is present, and gives its value. A missing key raises `KeyError`. |
| Engine.Save | rag_chatbot.py:192-195 | The common ending of a turn registers nothing and leaves grievances and knowledge unchanged. |
| Engine.FromInitial | rag_chatbot.py:125-146 | The initial step never registers and never changes grievances or the knowledge base. |
| Engine.FromName | rag_chatbot.py:149-156 | The name step never registers and never changes grievances or the knowledge base. |
| Engine.FromMobile | rag_chatbot.py:158-165 | The mobile step never registers and never changes grievances or the knowledge base. |
| Engine.FromComplaint | rag_chatbot.py:167-185 | The details step adds exactly one grievance when it registers and none otherwise. |
| Engine.Dispatch | rag_chatbot.py:124-190 | The same, for any step. |
| Engine.Load | rag_chatbot.py:117-122 | A stored session is used as read. An unknown id reads as empty data in the initial step. A read error is the turn's error. |
| Engine.ProcessMessage | rag_chatbot.py:111-195 | A turn never changes the knowledge base. It appends exactly one grievance when it reports a registration and changes no grievance otherwise. |
| Engine.ComplaintStatusById | rag_chatbot.py:197-199 | The status by id is found exactly when a grievance has that non-empty id, and is that grievance's status. |
| Conversation.TurnFromSession | rag_chatbot.py:117-122 | A turn dispatches on the data and step the session reads. |
| Conversation.UnknownSession | rag_chatbot.py:117-122 | An unknown session id is processed as the initial step with empty data. |
| Conversation.SavedSees | rag_chatbot.py:192-193 | After a saved turn the session reads the saved data and step. |
| Conversation.InitialRegisterIntent | rag_chatbot.py:128-130 | In the initial step a complaint intent moves to `collecting_name`, asks for the name, keeps the data, and registers nothing. |
| Conversation.InitialOtherIntent | rag_chatbot.py:132-146 | A status question or general query stays in `initial` with the data unchanged. It adds no grievance and registers nothing. A status question gets the status answer, and a general query gets the knowledge-base answer. |
| Conversation.StatusByMobile | rag_chatbot.py:134-140 | A status question containing a mobile answers from the latest grievance filed with it, or says none was found. |
| Conversation.StatusTurn | rag_chatbot.py:132-142 | The reply a status question gets from the turn: without a mobile in it, a request for the complaint id or mobile; with one, the status of the latest grievance filed with it, or that none was found. |
| Conversation.NameAccepted | rag_chatbot.py:149-154 | A valid name is stored under `name` and the chain moves to `collecting_mobile`, registering nothing. |
| Conversation.NameRejected | rag_chatbot.py:155-156 | An invalid name leaves the step and the data as they were and registers nothing. |
| Conversation.MobileAccepted | rag_chatbot.py:158-163 | A valid mobile is stored under `mobile` and the chain moves to `collecting_complaint`, registering nothing. |
| Conversation.MobileRejected | rag_chatbot.py:164-165 | A message without a mobile leaves the step and the data as they were and registers nothing. |
| Conversation.DetailsTooShort | rag_chatbot.py:184-185 | Details of at most ten characters once stripped leave the step and the data as they were and register nothing. |
| Conversation.CollectedFields | rag_chatbot.py:169-175 | Adding the details keeps the stored name and mobile readable. |
| Conversation.FreshIdRow | dbmanager.py:86-94 | A free id inserts exactly the row for the collected fields. |
| Conversation.DetailsTurn | rag_chatbot.py:167-183 | Long enough details with a free id register the complaint and reset the session. |
| Conversation.DetailsRegister | rag_chatbot.py:167-183 | Long enough details insert exactly one grievance with the stored name, the stored mobile and the untrimmed message. The session is saved as empty data in `initial`, and the turn reports the registration. |
| Conversation.IdTaken | rag_chatbot.py:172-176 | A taken complaint id makes the details step fail with the duplicate-id error. |
| Conversation.UnknownStepResets | rag_chatbot.py:187-190 | Any step the engine does not test for, `completed` among them, goes back to `initial` and answers through the knowledge base. |
| Conversation.CompletedIsUnknown | rag_chatbot.py:17-23 | `completed` is such a step. |
| Conversation.CollectedHas | rag_chatbot.py:152-161 | The data collected by the name and mobile steps holds both fields. |
| Conversation.CollectThree | rag_chatbot.py:125-165 | A complaint intent, a name and a mobile each advance one step, record their field, and register nothing. |
| Conversation.RegistrationConversation | rag_chatbot.py:111-195 | From an unknown session, four messages register exactly one complaint with the given name, mobile and details. Only the last turn reports it, and the session ends empty in `initial`. |
| Conversation.ReadyLoad | rag_chatbot.py:117-122 | From ready tables every session loads, and its data holds the fields its step needs. |
| Conversation.EmptyReady | dbmanager.py:11-54 | Freshly created tables are ready. |
| Conversation.SavedReady | rag_chatbot.py:192-193 | Saving data that meets its step's needs keeps the tables ready. |
| Conversation.UpdateReady | dbmanager.py:129-137 | The same, for the upsert itself. |
| Conversation.InitialReady | rag_chatbot.py:125-146 | The initial step keeps the tables ready. |
| Conversation.NameReady | rag_chatbot.py:149-156 | The name step keeps the tables ready. |
| Conversation.MobileReady | rag_chatbot.py:158-165 | The mobile step keeps the tables ready. |
| Conversation.RegisteredReady | dbmanager.py:80-96 | Registration keeps the tables ready. |
| Conversation.ComplaintReady | rag_chatbot.py:167-185 | The details step keeps the tables ready and can fail only on a taken complaint id. |
| Conversation.TurnKeepsReady | rag_chatbot.py:111-195 | Every turn from ready tables leaves them ready. Its only possible exception is a taken complaint id: the `KeyError` on `user_data` and the JSON decoding error cannot happen. |

## Left out

- The language model. `get_rag_response` is `Engine.RagResponse`: it searches
  the knowledge base with the whole message and hands the rows and the
  message to the parameter `llm`. The system prompt and the prompt wording are
  fixed text around those two, so the model omits them. A failed call is the
  fixed apology.
- Randomness and clocks. The six complaint-id digits and the timestamp are
  parameters of the turn.
- SQLite plumbing: connections, `CREATE TABLE`, commits and concurrent access.
  The tables are sequences of rows in rowid order.
- Text.Lower: only ASCII letters change case. Python's `str.lower()` also
  maps other characters. For example, U+212A KELVIN SIGN becomes `k`, so
  `analyze_intent("chec\u212A")` is a status question in Python but a general
  query in the model.
- Extract.ExtractMobile: `\s` is the whitespace set of Python's `str.isspace`,
  but `\d` is the ASCII digits only. Python's `\d` also matches other
  Unicode decimal digits.
- Extract.ExtractName: `isalpha` and `title` are ASCII only. Python's also
  accept other Unicode letters, and Python's `title` treats characters such as
  apostrophes as word breaks in the same way the model does.
- Knowledge.Search: rows of equal rank come in table order. SQLite does not
  fix that order, so the contract states only the order between ranks.
- Store.Latest: of several rows with the same greatest `created_at`, the
  earliest is returned. SQLite does not fix which one, so the contract states
  only that the `created_at` is the greatest.
- Store.UpdateChatSession: `INSERT OR REPLACE` also resets `created_at` of the
  replaced row. The model writes the new row with the given timestamp and
  does not separate the two columns' histories.
- Json.DecodeEncode: `user_data` holds only string values, the only kind the
  engine stores. Other JSON values and lone surrogate code points are not
  modelled.
- Store.LoadUserData: only a JSON object whose values are strings loads.
  Python's `json.loads` also accepts other JSON text (`[]`, `5`,
  `{"a": 1}`), which the model reads as malformed data. The engine stores
  only string-valued objects, so such text never comes from the code itself.
- The `completed` step is never written by the code (the registration path
  saves `initial`). A stored `completed` is handled like any unknown step.
- flask_api.py (HTTP routing, session ids from `uuid4`, its own 10-digit form
  check) and streamlit_frontend.py (the web UI) are not part of this model.
