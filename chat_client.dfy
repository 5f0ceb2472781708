/**
 * The chat page of himu-frontend (src/App.jsx): a message list, an input
 * string and a loading flag, driven by the form's submit handler.
 *
 * The handler awaits one HTTP exchange; it is modelled as two steps, the
 * synchronous part up to the request (Submit) and the continuation that
 * runs when the request settles (Resolve).
 */
module ChatClient {
  import opened Wrappers

  datatype Sender = User | Himu

  /** One entry of the message list; the page renders it by sender. */
  datatype Message = Message(sender: Sender, text: string)

  /** The JSON body posted to /api/chat. */
  datatype RequestBody = RequestBody(message: string)

  /** How the awaited request settles: a reply from an ok response, a
      non-ok HTTP status, or a thrown error (network, JSON parsing). */
  datatype Outcome = Ok(reply: string) | NotOk(status: int) | Threw

  /** The text Himu shows whenever the exchange fails. */
  const ERROR_TEXT: string := "আমার সাথে কথা বলতে সমস্যা হচ্ছে। পরে চেষ্টা করুন।"

  // ---------------------------------------------------------------------
  // String.prototype.trim

  /** ECMAScript WhiteSpace and LineTerminator code points, the characters
      that trim removes. */
  predicate IsJsWhitespace(c: char)
  {
    c == '\t' || c == '\n' || c == '\r' || c == ' ' ||
    c as int == 0x0B || c as int == 0x0C || c as int == 0xA0 ||
    c as int == 0x1680 || 0x2000 <= c as int <= 0x200A ||
    c as int == 0x2028 || c as int == 0x2029 || c as int == 0x202F ||
    c as int == 0x205F || c as int == 0x3000 || c as int == 0xFEFF
  }

  /** Every character of s is whitespace (the empty string included). */
  predicate IsBlank(s: string)
  {
    forall i :: 0 <= i < |s| ==> IsJsWhitespace(s[i])
  }

  /** s without its leading whitespace. */
  function TrimStart(s: string): (r: string)
    ensures |r| <= |s| && r == s[|s| - |r|..]
    ensures IsBlank(s[..|s| - |r|])
    ensures r == [] || !IsJsWhitespace(r[0])
  {
    if s != [] && IsJsWhitespace(s[0]) then
      var r := TrimStart(s[1..]);
      assert s[1..][..|s| - 1 - |r|] == s[1..|s| - |r|];
      r
    else s
  }

  /** s without its trailing whitespace. */
  function TrimEnd(s: string): (r: string)
    ensures |r| <= |s| && r == s[..|r|]
    ensures IsBlank(s[|r|..])
    ensures r == [] || !IsJsWhitespace(r[|r| - 1])
  {
    if s != [] && IsJsWhitespace(s[|s| - 1]) then
      var r := TrimEnd(s[..|s| - 1]);
      assert s[|r|..] == s[..|s| - 1][|r|..] + [s[|s| - 1]];
      r
    else s
  }

  /** input.trim(): the empty string exactly when the input is blank. */
  function Trim(s: string): (r: string)
    ensures r == [] <==> IsBlank(s)
  {
    var t := TrimStart(s);
    if t == [] then
      assert s[..|s|] == s;
      []
    else
      assert !IsJsWhitespace(t[0]);
      assert s[|s| - |t|] == t[0];
      TrimEnd(t)
  }

  // ---------------------------------------------------------------------
  // The page state and its transitions, as values

  datatype State = State(messages: seq<Message>, input: string, isLoading: bool)

  /** useState([]), useState(''), useState(false). */
  const Initial: State := State([], "", false)

  /** onChange of the text field. */
  function EditStep(s: State, text: string): State
  {
    s.(input := text)
  }

  /** handleSubmit up to the awaited fetch: the new state and the request
      it sends, if any. */
  function SubmitStep(s: State): (r: (State, Option<RequestBody>))
    ensures IsBlank(s.input) ==> r == (s, None)
    ensures !IsBlank(s.input) ==>
      r.0.messages == s.messages + [Message(User, s.input)] &&
      r.0.input == "" && r.0.isLoading &&
      r.1 == Some(RequestBody(s.input))
  {
    if Trim(s.input) == "" then (s, None)
    else
      var sent := s.input;
      var withUser := s.(messages := s.messages + [Message(User, s.input)]);
      var cleared := withUser.(input := "");
      (cleared.(isLoading := true), Some(RequestBody(sent)))
  }

  /** The text of the message Himu appends when the exchange settles. */
  function HimuText(o: Outcome): string
  {
    match o
    case Ok(reply) => reply
    case NotOk(_) => ERROR_TEXT
    case Threw => ERROR_TEXT
  }

  /** The continuation of handleSubmit: try / catch / finally. */
  function ResolveStep(s: State, o: Outcome): (r: State)
    ensures r.messages == s.messages + [Message(Himu, if o.Ok? then o.reply else ERROR_TEXT)]
    ensures !r.isLoading && r.input == s.input
    ensures Consistent(s) && s.isLoading ==> Consistent(r)
  {
    var settled := s.(messages := s.messages + [Message(Himu, HimuText(o))]);
    settled.(isLoading := false)
  }

  // ---------------------------------------------------------------------
  // Event sequences

  /** What the page can receive: a keystroke, a form submission, or the
      settlement of the outstanding request. */
  datatype Event = Edit(text: string) | Submit | Resolve(outcome: Outcome)

  /** One event. The text field and the button carry disabled={isLoading},
      so edits and submissions are dropped while loading; a settlement
      arrives only while a request is outstanding, which is exactly while
      loading. */
  function Dispatch(s: State, e: Event): State
  {
    match e
    case Edit(text) => if s.isLoading then s else EditStep(s, text)
    case Submit => if s.isLoading then s else SubmitStep(s).0
    case Resolve(o) => if s.isLoading then ResolveStep(s, o) else s
  }

  function Run(s: State, events: seq<Event>): State
    decreases |events|
  {
    if events == [] then s else Run(Dispatch(s, events[0]), events[1..])
  }

  /** The messages alternate user, himu, user, himu, ... */
  predicate Alternates(ms: seq<Message>)
  {
    forall i :: 0 <= i < |ms| ==> ms[i].sender == (if i % 2 == 0 then User else Himu)
  }

  /** The page invariant: the list is a sequence of completed turns,
      followed by one unanswered user message exactly while loading; the
      input is empty while loading. */
  predicate Consistent(s: State)
  {
    Alternates(s.messages) &&
    (s.isLoading <==> |s.messages| % 2 == 1) &&
    (s.isLoading ==> s.input == "")
  }

  lemma InitialConsistent()
    ensures Consistent(Initial) && Initial.messages == [] && !Initial.isLoading
  {
  }

  /** Every event keeps the invariant. */
  lemma DispatchConsistent(s: State, e: Event)
    requires Consistent(s)
    ensures Consistent(Dispatch(s, e))
  {
    var t := Dispatch(s, e);
    if t.messages != s.messages {
      assert t.messages == s.messages + [t.messages[|s.messages|]];
      forall i | 0 <= i < |t.messages|
        ensures t.messages[i].sender == (if i % 2 == 0 then User else Himu)
      {
        if i < |s.messages| {
          assert t.messages[i] == s.messages[i];
        }
      }
    }
  }

  /** Every reachable page state satisfies the invariant. */
  lemma {:induction false} RunConsistent(s: State, events: seq<Event>)
    requires Consistent(s)
    ensures Consistent(Run(s, events))
    decreases |events|
  {
    if events != [] {
      DispatchConsistent(s, events[0]);
      RunConsistent(Dispatch(s, events[0]), events[1..]);
    }
  }

  /** Messages are only ever appended: earlier messages never change. */
  lemma {:induction false} RunOnlyAppends(s: State, events: seq<Event>)
    ensures s.messages <= Run(s, events).messages
    decreases |events|
  {
    if events != [] {
      var t := Dispatch(s, events[0]);
      assert s.messages <= t.messages;
      RunOnlyAppends(t, events[1..]);
    }
  }

  /** A blank submission changes nothing and sends nothing. */
  lemma BlankSubmitIsNoOp(s: State)
    requires IsBlank(s.input)
    ensures Dispatch(s, Submit) == s && SubmitStep(s).1 == None
  {
  }

  /** While loading, a submission is dropped: no second turn starts. */
  lemma LoadingBlocksSubmit(s: State, text: string)
    requires s.isLoading
    ensures Dispatch(s, Submit) == s && Dispatch(s, Edit(text)) == s
  {
  }

  /** One accepted turn: the untrimmed input, then exactly one Himu message
      (the reply, or the error text for any failure), loading cleared, the
      earlier messages kept; the request carries the input as typed. */
  lemma AcceptedTurn(s: State, o: Outcome)
    requires !s.isLoading && !IsBlank(s.input)
    ensures SubmitStep(s).1 == Some(RequestBody(s.input))
    ensures Run(s, [Submit, Resolve(o)]) ==
      State(s.messages + [Message(User, s.input), Message(Himu, HimuText(o))], "", false)
  {
    var t := SubmitStep(s).0;
    assert t == State(s.messages + [Message(User, s.input)], "", true);
    assert Dispatch(s, Submit) == t;
    var u := ResolveStep(t, o);
    assert Dispatch(t, Resolve(o)) == u;
    assert [Submit, Resolve(o)][1..] == [Resolve(o)];
    assert Run(s, [Submit, Resolve(o)]) == Run(t, [Resolve(o)]);
    assert Run(t, [Resolve(o)]) == Run(u, []);
    assert u.messages == s.messages + [Message(User, s.input), Message(Himu, HimuText(o))];
  }

  /** Failure kinds are not distinguished. */
  lemma FailuresLookAlike(status: int)
    ensures HimuText(NotOk(status)) == HimuText(Threw) == ERROR_TEXT
  {
  }

  // ---------------------------------------------------------------------
  // The component, with its state fields updated in place

  class App {
    var messages: seq<Message>
    var input: string
    var isLoading: bool

    function Snapshot(): State
      reads this
    {
      State(messages, input, isLoading)
    }

    ghost predicate Valid()
      reads this
    {
      Consistent(Snapshot())
    }

    constructor ()
      ensures Valid() && Snapshot() == Initial
    {
      messages, input, isLoading := [], "", false;
    }

    /** setInput(e.target.value); the field is disabled while loading. */
    method Edit(text: string)
      requires Valid() && !isLoading
      modifies this
      ensures Valid()
      ensures Snapshot() == EditStep(old(Snapshot()), text)
    {
      input := text;
    }

    /** handleSubmit up to the fetch; the button is disabled while loading.
        Returns the request body it posts, if it posts one. */
    method HandleSubmit() returns (request: Option<RequestBody>)
      requires Valid() && !isLoading
      modifies this
      ensures Valid()
      ensures (Snapshot(), request) == SubmitStep(old(Snapshot()))
    {
      if Trim(input) == "" {
        return None;
      }
      var sent := input;
      var userMessage := Message(User, input);
      messages := messages + [userMessage];
      input := "";
      isLoading := true;
      request := Some(RequestBody(sent));
      DispatchConsistent(old(Snapshot()), Submit);
    }

    /** The rest of handleSubmit, once the request settles. */
    method HandleOutcome(outcome: Outcome)
      requires Valid() && isLoading
      modifies this
      ensures Valid()
      ensures Snapshot() == ResolveStep(old(Snapshot()), outcome)
    {
      var text: string;
      match outcome {
        case Ok(reply) =>
          text := reply;
        case NotOk(_) =>
          text := ERROR_TEXT;
        case Threw =>
          text := ERROR_TEXT;
      }
      messages := messages + [Message(Himu, text)];
      isLoading := false;
      DispatchConsistent(old(Snapshot()), Resolve(outcome));
    }
  }
}
