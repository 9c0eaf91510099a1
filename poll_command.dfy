/**
 * commands/PollCommand.java: checks the parameters of a new poll, refuses it
 * while another poll is active, sends the native Telegram poll and, once
 * Telegram has answered with a message id, starts the poll in the manager.
 *
 * Telegram's answer to the send is a parameter, and the send itself is
 * recorded in the manager's log of Telegram calls.
 */
module PollCommands {
  import opened Wrappers
  import opened JavaText
  import opened Polls

  const INVALID_PARAMETERS: string := "Invalid poll parameters"
  const ANOTHER_POLL_ACTIVE: string := "Another poll is already active"
  const POLL_CREATED: string := "Poll created successfully"
  const POLL_SENT: string := "Poll sent"
  const INVALID_RESPONSE: string := "Invalid response from Telegram API"

  /** PollCreationResult: whether a poll was created, a message, and the poll's message id (0 when none). */
  datatype PollCreationResult = PollCreationResult(success: bool, message: string, messageId: int)

  /** PollCreationResult.error. */
  function Error(message: string): PollCreationResult {
    PollCreationResult(false, message, 0)
  }

  /** PollCreationResult.success. */
  function Success(message: string, messageId: int): PollCreationResult {
    PollCreationResult(true, message, messageId)
  }

  /**
   * What the send of the native poll gives back: it threw an exception with
   * this message, or it returned a response (None for a null response) with
   * the id of the sent message.
   */
  datatype PollSendAnswer = Threw(message: string) | Responded(response: Option<int>)

  /** A response that carries a usable message id: not null and not 0. */
  predicate Usable(answer: PollSendAnswer) {
    answer.Responded? && answer.response.Some? && answer.response.value != 0
  }

  /** The private SendPollResult record. */
  datatype SendPollResult = SendPollResult(success: bool, message: string, messageId: int)

  /**
   * sendPoll: a response with a message id other than 0 succeeds with that
   * id; a null or zero response and a thrown exception fail with message id
   * 0, carrying a fixed text or the exception's message.
   */
  function SendPoll(answer: PollSendAnswer): (r: SendPollResult)
    ensures r.success <==> Usable(answer)
    ensures r.success ==> r.messageId == answer.response.value && r.messageId != 0 && r.message == POLL_SENT
    ensures !r.success ==> r.messageId == 0
    ensures answer.Threw? ==> r.message == answer.message
    ensures answer.Responded? && !Usable(answer) ==> r.message == INVALID_RESPONSE
  {
    match answer
    case Threw(message) => SendPollResult(false, message, 0)
    case Responded(response) =>
      if response.Some? && response.value != 0 then SendPollResult(true, POLL_SENT, response.value)
      else SendPollResult(false, INVALID_RESPONSE, 0)
  }

  /** One parameter of validateInput: not null and not blank after trim. */
  predicate Present(s: Option<string>) {
    s.Some? && !IsBlank(s.value)
  }

  /** validateInput: all three texts are present and hold a character above U+0020. */
  predicate ValidInput(question: Option<string>, positiveOption: Option<string>, negativeOption: Option<string>) {
    Present(question) && Present(positiveOption) && Present(negativeOption)
  }

  /** A parameter is accepted exactly when it is not null and has some character at or above U+0021. */
  lemma PresentIffVisible(s: Option<string>)
    ensures Present(s) <==> s.Some? && exists k :: 0 <= k < |s.value| && !IsTrimmable(s.value[k])
  {
    if s.Some? {
      BlankIffAllTrimmable(s.value);
    }
  }

  /** The result of createPoll together with the manager's new state and the Telegram calls made. */
  datatype Creation = Creation(result: PollCreationResult, step: Step)

  /**
   * createPoll from manager state `s`, with Telegram answering the send with
   * `answer` and the status message being given id `statusId`.
   */
  function CreatePollStep(question: Option<string>, positiveOption: Option<string>, negativeOption: Option<string>,
                          targetVotes: int, s: PollState, answer: PollSendAnswer, statusId: int): (c: Creation)
    ensures c.result.success <==> ValidInput(question, positiveOption, negativeOption) && !s.isActive && Usable(answer)
    ensures !c.result.success ==> c.result.messageId == 0 && c.step.state == s
    ensures !ValidInput(question, positiveOption, negativeOption) ==>
      c.result == Error(INVALID_PARAMETERS) && c.step.events == []
    ensures ValidInput(question, positiveOption, negativeOption) && s.isActive ==>
      c.result == Error(ANOTHER_POLL_ACTIVE) && c.step.events == []
    ensures ValidInput(question, positiveOption, negativeOption) && !s.isActive ==>
      |c.step.events| >= 1
      && c.step.events[0] == PollSent(question.value, positiveOption.value, negativeOption.value)
      && (!Usable(answer) ==> c.result == Error(SendPoll(answer).message) && |c.step.events| == 1)
    ensures c.result.success ==>
      c.result == Success(POLL_CREATED, answer.response.value)
      && c.step.state == PollState(targetVotes, [], [], true, Some(answer.response.value), Some(statusId), true)
      && c.step.events[1..] == [StatusSent(StatusOf(c.step.state.(statusMessageId := None))), StatusPinned(statusId)]
  {
    if !ValidInput(question, positiveOption, negativeOption) then
      Creation(Error(INVALID_PARAMETERS), Step(s, []))
    else if s.isActive then
      Creation(Error(ANOTHER_POLL_ACTIVE), Step(s, []))
    else
      var sent := PollSent(question.value, positiveOption.value, negativeOption.value);
      var send := SendPoll(answer);
      if send.success then
        var started := PollState(targetVotes, [], [], true, Some(send.messageId), Some(statusId), true);
        Creation(Success(POLL_CREATED, send.messageId),
                 Step(started, [sent, StatusSent(StatusOf(started.(statusMessageId := None))), StatusPinned(statusId)]))
      else
        Creation(Error(send.message), Step(s, [sent]))
  }

  /** A created poll starts valid, active, empty and with the requested target. */
  lemma CreatedPollIsFresh(question: Option<string>, positiveOption: Option<string>, negativeOption: Option<string>,
                           targetVotes: int, s: PollState, answer: PollSendAnswer, statusId: int)
    ensures s.Valid() ==>
      CreatePollStep(question, positiveOption, negativeOption, targetVotes, s, answer, statusId).step.state.Valid()
    ensures CreatePollStep(question, positiveOption, negativeOption, targetVotes, s, answer, statusId).result.success ==>
      var t := CreatePollStep(question, positiveOption, negativeOption, targetVotes, s, answer, statusId).step.state;
      t.isActive && t.Positive() == 0 && t.targetVotes == targetVotes
  {
  }

  /** commands/PollCommand: creates polls for the manager it was built with. */
  class PollCommand {
    const pollManager: PollManager

    constructor(pollManager: PollManager)
      ensures this.pollManager == pollManager
    {
      this.pollManager := pollManager;
    }

    /**
     * createPoll: validate, refuse while a poll is active, send, and start the
     * poll in the manager only when the send gave a usable message id.
     */
    method CreatePoll(question: Option<string>, positiveOption: Option<string>, negativeOption: Option<string>,
                      targetVotes: int, answer: PollSendAnswer, statusId: int) returns (r: PollCreationResult)
      requires pollManager.Valid()
      modifies pollManager
      ensures r == CreatePollStep(question, positiveOption, negativeOption, targetVotes,
                                  old(pollManager.State()), answer, statusId).result
      ensures pollManager.State() == CreatePollStep(question, positiveOption, negativeOption, targetVotes,
                                                    old(pollManager.State()), answer, statusId).step.state
      ensures pollManager.events == old(pollManager.events)
        + CreatePollStep(question, positiveOption, negativeOption, targetVotes,
                         old(pollManager.State()), answer, statusId).step.events
      ensures pollManager.Valid()
    {
      if !ValidInput(question, positiveOption, negativeOption) {
        return Error(INVALID_PARAMETERS);
      }
      if pollManager.isActive {
        return Error(ANOTHER_POLL_ACTIVE);
      }
      pollManager.events := pollManager.events + [PollSent(question.value, positiveOption.value, negativeOption.value)];
      var result := SendPoll(answer);
      if result.success {
        pollManager.InitializePoll(targetVotes, Some(result.messageId), statusId);
        return Success(POLL_CREATED, result.messageId);
      } else {
        return Error(result.message);
      }
    }
  }
}
