/** The per-user conversation: the states of `BotStates`, the session data the
    handlers keep between updates, the `set_state` / `update_data` / `clear`
    primitives, the back and cancel transitions, and which message handler an
    incoming message reaches. */
module Conversation {
  import opened Wrappers

  /** `BotStates`; the two team-member states belong to handlers that sit in a
      string literal and are never registered. */
  datatype BotState =
    | CreateTitle | CreateDescription | CreatePriority | AddComment
    | ViewTeamMember | AddTeamMember
    | VerifyEmail | VerifyCode

  /** Telegram message ids are positive, so `if not bot_message_id` only
      catches a missing key. */
  type MessageId = x: int | x > 0 witness 1

  /** The keys the handlers put into the session data; a missing key is `None`. */
  datatype SessionData = SessionData(
    botMessageId: Option<MessageId>,
    title: Option<string>,
    description: Option<string>,
    priority: Option<string>,
    issueKey: Option<string>,
    taskMessageId: Option<MessageId>)

  const EmptyData := SessionData(None, None, None, None, None, None)

  /** The FSM context of one user: a state (none after `clear`) and its data. */
  datatype Session = Session(state: Option<BotState>, data: SessionData)

  /** `state.clear()` drops the state and the data together. */
  const Cleared := Session(None, EmptyData)

  /** `state.set_state(st)` keeps the data. */
  function SetState(s: Session, st: BotState): (r: Session)
  {
    s.(state := Some(st))
  }

  // ---------------------------------------------------------------------
  // Back and cancel

  /** `handle_back`: one step back inside the request form, otherwise home. */
  function Back(s: Session): (r: Session)
    ensures r.state != Some(AddComment) && r.state != Some(VerifyEmail) && r.state != Some(VerifyCode)
    ensures r.state.Some? ==> r.data == s.data
    ensures r.state.None? ==> r == Cleared
  {
    match s.state
    case Some(CreateDescription) => SetState(s, CreateTitle)
    case Some(CreatePriority) => SetState(s, CreateDescription)
    case _ => Cleared
  }

  /** `cancel_button_handler`: from the code prompt back to the e-mail
      prompt, from anywhere else home. */
  function Cancel(s: Session): (r: Session)
    ensures r.state.Some? ==> r.state == Some(VerifyEmail) && r.data == s.data
    ensures r.state.None? ==> r == Cleared
  {
    if s.state == Some(VerifyCode) then SetState(s, VerifyEmail) else Cleared
  }

  /** The transition table of `handle_back` and `cancel_button_handler`, with
      every state listed. */
  lemma BackAndCancelTable(s: Session)
    ensures s.state == Some(CreateDescription) ==> Back(s) == Session(Some(CreateTitle), s.data)
    ensures s.state == Some(CreatePriority) ==> Back(s) == Session(Some(CreateDescription), s.data)
    ensures s.state !in {Some(CreateDescription), Some(CreatePriority)} ==> Back(s) == Cleared
    ensures s.state == Some(VerifyCode) ==> Cancel(s) == Session(Some(VerifyEmail), s.data)
    ensures s.state != Some(VerifyCode) ==> Cancel(s) == Cleared
  {
  }

  /** Stepping back from the priority prompt twice lands on the title prompt
      with the title and description that were typed still in the data. */
  lemma StepBackKeepsDraft(s: Session)
    requires s.state == Some(CreatePriority)
    ensures Back(Back(s)).state == Some(CreateTitle)
    ensures Back(Back(s)).data.title == s.data.title
    ensures Back(Back(s)).data.description == s.data.description
  {
  }

  // ---------------------------------------------------------------------
  // The invariant the handlers keep

  /** What every reachable session satisfies: the comment prompt always knows
      its ticket, the two verification prompts always have the prompt message
      to edit, and the team-member states are never entered. */
  predicate WellFormed(s: Session) {
    && (s.state == Some(AddComment) ==> s.data.issueKey.Some?)
    && (s.state == Some(VerifyEmail) ==> s.data.botMessageId.Some?)
    && (s.state == Some(VerifyCode) ==> s.data.botMessageId.Some?)
    && s.state != Some(ViewTeamMember) && s.state != Some(AddTeamMember)
  }

  lemma BackCancelKeepWellFormed(s: Session)
    requires WellFormed(s)
    ensures WellFormed(Back(s)) && WellFormed(Cancel(s))
  {
  }

  // ---------------------------------------------------------------------
  // Message dispatch

  /** An incoming message: its text, or none for a photo, sticker, ... */
  datatype Input = Text(text: string) | NonText

  datatype MessageHandler =
    | StartCommand | ProcessEmail | ProcessCode
    | ProcessTitle | InvalidTitle | ProcessDescription | InvalidDescription
    | ProcessComment | NoHandler

  /** The first registered message handler whose filters match: `/start`
      wins in every state; the state filters follow in registration order. */
  function RouteMessage(state: Option<BotState>, input: Input): (h: MessageHandler)
    ensures input == Text("/start") ==> h == StartCommand
    ensures h == ProcessTitle ==> state == Some(CreateTitle) && input.Text?
    ensures h == InvalidTitle ==> state == Some(CreateTitle) && input.NonText?
    ensures h == ProcessDescription ==> state == Some(CreateDescription) && input.Text?
    ensures h == InvalidDescription ==> state == Some(CreateDescription) && input.NonText?
    ensures state.None? && input != Text("/start") ==> h == NoHandler
  {
    if input == Text("/start") then StartCommand
    else match state
      case Some(VerifyEmail) => ProcessEmail
      case Some(VerifyCode) => ProcessCode
      case Some(CreateTitle) => if input.Text? then ProcessTitle else InvalidTitle
      case Some(CreateDescription) => if input.Text? then ProcessDescription else InvalidDescription
      case Some(AddComment) => ProcessComment
      case _ => NoHandler
  }
}
