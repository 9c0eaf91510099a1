/**
 * The group poll of services/PollManager.java: one poll at a time, with a
 * target number of "for" votes, the direct answers given in Telegram's own poll
 * widget, and the external votes added by "/+" commands on behalf of others.
 *
 * Every call the manager makes to Telegram is recorded as an Event in a log,
 * in the order it is made; the answers Telegram gives (the id of a sent
 * message, a refused send) are parameters of the operations that need them.
 */
module Polls {
  import opened Wrappers
  import opened JavaText
  import opened Votes
  import opened Ledger
  import opened CommandUtils

  /** The most anonymous votes one "/+N" command may add. */
  const MAX_VOTES_PER_COMMAND: int := 12

  /** Messages.DEFAULT_ERROR, the message of the exception thrown for "/+N" with N above the limit. */
  const DEFAULT_ERROR: string := "Упс! Шось не так 🫠"

  /** Messages.ANONYMOUS_VOTER, shown in place of a missing voter name. */
  const ANONYMOUS_VOTER: string := "Анонім"

  /** How a confirmation of added votes describes them. */
  datatype VoteText =
    | AnonymousSingle
    | AnonymousMultiple(count: int)
    | NamedSingle(names: seq<string>)
    | NamedMultiple(names: seq<string>)

  /** The notices sent to a chat (their Ukrainian wording is not modelled). */
  datatype Notice =
    | PollCreated
    | PollClosed
    | TooManyVotes(requested: int, remaining: int)
    | VoteAdded(text: VoteText)
    | Completion
    | NoActivePoll
    | VoteRevoked
    | NoVotesToRevoke
    | RevokeUsage
    | InvalidVoteNumber
    | RevokedDirect(number: int, voterName: string)
    | AdminRevokedDirect(number: int, voterName: string)
    | RevokedExternal(number: int, voterName: string)
    | AdminRevokedExternal(number: int, voterName: string, requesterName: string)
    | PermissionDenied
    | VoteNotFound(number: int)

  /** One numbered line of the status message's vote list. */
  datatype StatusLine = StatusLine(number: int, name: string, invitedBy: Option<string>)

  /**
   * The structure of the status message: completed or not, the target, the
   * number still missing (shown only while not completed) and the vote list.
   */
  datatype StatusView = StatusView(completed: bool, target: int, remaining: Option<int>, lines: seq<StatusLine>)

  /** A call to Telegram. */
  datatype Event =
    | PollSent(question: string, positiveOption: string, negativeOption: string)
    | PollStopped(messageId: int)
    | StatusSent(view: StatusView)
    | StatusPinned(messageId: int)
    | StatusUnpinned(messageId: int)
    | StatusEdited(messageId: int, view: StatusView)
    | Sent(chatId: int, notice: Notice)
    | ErrorSent(chatId: int, notice: Notice)
    | Acknowledged(notice: Notice)

  /** What Telegram answers to the native poll being sent. */
  datatype SendAnswer = Delivered(messageId: int) | Refused(reason: string)

  /**
   * The fields of the manager as one value. `collectionsPresent` is false where
   * the Java collections are null (after a reset, before the first poll); the
   * sequences are then empty.
   */
  datatype PollState = PollState(
    targetVotes: int,
    directVoters: DirectVoters,
    externalVotes: seq<Vote>,
    collectionsPresent: bool,
    telegramMessageId: Option<int>,
    statusMessageId: Option<int>,
    isActive: bool)
  {
    /** getPositiveVotes. */
    function Positive(): nat {
      PositiveVotes(directVoters, externalVotes)
    }

    /**
     * Each user answers at most once; absent collections hold nothing; an
     * active poll and a posted status message both have their collections.
     */
    predicate Valid() {
      UniqueUsers(directVoters)
      && (!collectionsPresent ==> directVoters == [] && externalVotes == [])
      && (isActive ==> collectionsPresent)
      && (statusMessageId.Some? ==> collectionsPresent)
    }
  }

  /** A state together with the calls made to reach it. */
  datatype Step = Step(state: PollState, events: seq<Event>)

  /** The name a vote is listed and reported under. */
  function DisplayName(v: Vote): (r: string)
    ensures v.IsAnonymous() ==> r == ANONYMOUS_VOTER
    ensures !v.IsAnonymous() ==> v.voterName == Some(r)
  {
    if v.IsAnonymous() then ANONYMOUS_VOTER else v.voterName.value
  }

  /** The line of an entry: a direct voter by first name, an external vote with who invited it. */
  function LineOf(number: int, e: Entry): StatusLine {
    match e
    case DirectEntry(u) => StatusLine(number, u.firstName, None)
    case ExternalEntry(v) => StatusLine(number, DisplayName(v), Some(v.requesterName))
  }

  /** The vote list: entry i of the numbering on the line numbered i + 1. */
  function VoteLines(entries: seq<Entry>): (r: seq<StatusLine>)
    ensures |r| == |entries|
    ensures forall i :: 0 <= i < |r| ==> r[i].number == i + 1
  {
    seq(|entries|, i requires 0 <= i < |entries| => LineOf(i + 1, entries[i]))
  }

  /** buildStatusMessage, as structure. */
  function StatusOf(s: PollState): StatusView {
    var completed := s.Positive() >= s.targetVotes;
    StatusView(completed, s.targetVotes, if completed then None else Some(s.targetVotes - s.Positive()),
               VoteLines(Combined(s.directVoters, s.externalVotes)))
  }

  /**
   * The status shows "remaining" exactly while the target is not reached, and
   * then a positive number; it lists one line per positive vote.
   */
  lemma StatusShape(s: PollState)
    ensures StatusOf(s).completed <==> s.Positive() >= s.targetVotes
    ensures StatusOf(s).remaining.Some? <==> !StatusOf(s).completed
    ensures StatusOf(s).remaining.Some? ==> StatusOf(s).remaining.value == s.targetVotes - s.Positive() > 0
    ensures |StatusOf(s).lines| == s.Positive()
  {
  }

  /** The positive direct voter at position k of the map is listed by first name on line CountPositive(dv[..k]) + 1. */
  lemma StatusListsDirectVoter(s: PollState, k: nat)
    requires k < |s.directVoters| && s.directVoters[k].option == 0
    ensures var n := CountPositive(s.directVoters[..k]) + 1;
      1 <= n <= |StatusOf(s).lines|
      && StatusOf(s).lines[n - 1] == StatusLine(n, s.directVoters[k].user.firstName, None)
  {
    var dv := s.directVoters;
    PositiveIndexUnique(dv, CountPositive(dv[..k]) + 1, k);
    RemovePositiveEntry(dv, s.externalVotes, CountPositive(dv[..k]) + 1);
  }

  /** External vote i is listed after all positive direct voters, with the name of who added it. */
  lemma StatusListsExternalVote(s: PollState, i: nat)
    requires i < |s.externalVotes|
    ensures var n := CountPositive(s.directVoters) + i + 1;
      var v := s.externalVotes[i];
      1 <= n <= |StatusOf(s).lines|
      && StatusOf(s).lines[n - 1] == StatusLine(n, DisplayName(v), Some(v.requesterName))
  {
    RemoveExternalEntry(s.directVoters, s.externalVotes, i);
  }

  function Max0(n: int): nat {
    if n < 0 then 0 else n
  }

  /**
   * The votes addExternalVote appends: one per name, trimmed, when names are
   * given; otherwise `voteCount` anonymous ones.
   */
  function AddedVotes(names: Option<seq<string>>, voteCount: int, requesterId: int, requesterName: string): seq<Vote> {
    if names.Some? && |names.value| > 0 then NamedVotes(names.value, requesterId, requesterName)
    else AnonymousVotes(Max0(voteCount), requesterId, requesterName)
  }

  /**
   * The added votes are all `requesterId`'s; with names, one per name in order,
   * for the trimmed name; without, `voteCount` (none if negative) anonymous ones.
   */
  lemma AddedVotesSpec(names: Option<seq<string>>, voteCount: int, requesterId: int, requesterName: string)
    ensures var r := AddedVotes(names, voteCount, requesterId, requesterName);
      (forall i :: 0 <= i < |r| ==> r[i].requesterId == requesterId && r[i].requesterName == requesterName)
      && (names.Some? && |names.value| > 0 ==>
            |r| == |names.value| && forall i :: 0 <= i < |r| ==> r[i].voterName == Some(Trim(names.value[i])))
      && (!(names.Some? && |names.value| > 0) ==>
            |r| == Max0(voteCount) && forall i :: 0 <= i < |r| ==> r[i].voterName == None && r[i].IsAnonymous())
  {
    var r := AddedVotes(names, voteCount, requesterId, requesterName);
    if names.Some? && |names.value| > 0 {
      forall i | 0 <= i < |r| ensures r[i] == NewVote(requesterId, requesterName, Some(Trim(names.value[i]))) {
        NamedVotesAt(names.value, requesterId, requesterName, i);
      }
    } else {
      forall i | 0 <= i < |r| ensures r[i] == NewAnonymousVote(requesterId, requesterName) {
        AnonymousVotesAt(Max0(voteCount), requesterId, requesterName, i);
      }
    }
  }

  /** One vote per name, in order, each for the trimmed name. */
  function NamedVotes(names: seq<string>, requesterId: int, requesterName: string): (r: seq<Vote>)
    ensures |r| == |names|
    decreases |names|
  {
    if names == [] then []
    else NamedVotes(names[..|names| - 1], requesterId, requesterName)
         + [NewVote(requesterId, requesterName, Some(Trim(names[|names| - 1])))]
  }

  /** `count` anonymous votes. */
  function AnonymousVotes(count: nat, requesterId: int, requesterName: string): (r: seq<Vote>)
    ensures |r| == count
  {
    if count == 0 then [] else AnonymousVotes(count - 1, requesterId, requesterName) + [NewAnonymousVote(requesterId, requesterName)]
  }

  lemma {:induction false} NamedVotesAt(names: seq<string>, requesterId: int, requesterName: string, i: nat)
    requires i < |names|
    ensures NamedVotes(names, requesterId, requesterName)[i] == NewVote(requesterId, requesterName, Some(Trim(names[i])))
    decreases |names|
  {
    if i < |names| - 1 {
      var p := names[..|names| - 1];
      assert p[i] == names[i];
      NamedVotesAt(p, requesterId, requesterName, i);
    }
  }

  lemma {:induction false} AnonymousVotesAt(count: nat, requesterId: int, requesterName: string, i: nat)
    requires i < count
    ensures AnonymousVotes(count, requesterId, requesterName)[i] == NewAnonymousVote(requesterId, requesterName)
    decreases count
  {
    if i < count - 1 {
      AnonymousVotesAt(count - 1, requesterId, requesterName, i);
    }
  }

  /** The confirmation text: anonymous when no names were passed, singular when one vote was asked for. */
  function VoteTextOf(names: Option<seq<string>>, voteCount: int): VoteText {
    match names
    case None => if voteCount == 1 then AnonymousSingle else AnonymousMultiple(voteCount)
    case Some(ns) => if voteCount == 1 then NamedSingle(ns) else NamedMultiple(ns)
  }

  /** What one "/+" command asks for, decided from its arguments. */
  datatype VoteRequest = AddAnonymous(count: int) | AddNamed(names: seq<string>) | RequestFails(error: JavaException)

  /**
   * handleVoteCommand's reading of the arguments: none is one anonymous vote;
   * a single number is that many anonymous votes (at most 12); anything else
   * is one named vote per argument.
   */
  function VoteRequestOf(args: seq<string>): (r: VoteRequest)
    ensures |args| == 0 ==> r == AddAnonymous(1)
    ensures r.AddAnonymous? ==> 0 <= r.count <= MAX_VOTES_PER_COMMAND
    ensures r.AddNamed? ==> r.names == args && |args| > 0 && !(|args| == 1 && AllDigits(args[0]))
    ensures r.RequestFails? <==> |args| == 1 && AllDigits(args[0])
                                  && (ParseInt(args[0]).None? || ParseInt(args[0]).value > MAX_VOTES_PER_COMMAND)
  {
    if |args| == 0 then AddAnonymous(1)
    else if |args| == 1 && AllDigits(args[0]) then
      match ParseInt(args[0])
      case None => RequestFails(NumberFormat)
      case Some(count) => if count > MAX_VOTES_PER_COMMAND then RequestFails(IllegalArgument(DEFAULT_ERROR)) else AddAnonymous(count)
    else AddNamed(args)
  }

  /** A number written with at most 12 as its value is that many anonymous votes; above 12 it is refused. */
  lemma VoteRequestOfNumber(n: nat)
    ensures n <= MAX_VOTES_PER_COMMAND ==> VoteRequestOf([NatToString(n)]) == AddAnonymous(n)
    ensures MAX_VOTES_PER_COMMAND < n <= INT_MAX ==> VoteRequestOf([NatToString(n)]) == RequestFails(IllegalArgument(DEFAULT_ERROR))
  {
    if n <= INT_MAX {
      ParseIntOfNatToString(n);
    }
  }

  /** What one "/-" command asks for, decided from its text split on whitespace. */
  datatype RevokeRequest = RevokeLatest | RevokeNumber(number: int) | RevokeUsageError

  /** handleRevokeCommand's reading of its text (the raw text, not the normalised command). */
  function RevokeRequestOf(text: string): (r: RevokeRequest)
    ensures r == RevokeLatest <==> |SplitWhitespace(text)| == 1
    ensures r.RevokeNumber? <==> |SplitWhitespace(text)| == 2 && ParseInt(SplitWhitespace(text)[1]).Some?
    ensures r.RevokeNumber? ==> ParseInt(SplitWhitespace(text)[1]) == Some(r.number)
  {
    var parts := SplitWhitespace(text);
    if |parts| == 1 then RevokeLatest
    else if |parts| == 2 then
      match ParseInt(parts[1])
      case Some(n) => RevokeNumber(n)
      case None => RevokeUsageError
    else RevokeUsageError
  }

  /**
   * Without whitespace the text is one part, so a number glued to the command
   * ("/-2") revokes the caller's latest vote rather than vote 2.
   */
  lemma RevokeGluedNumberIsLatest(text: string)
    requires !HasSpace(text)
    ensures RevokeRequestOf(text) == RevokeLatest
  {
  }

  /** "/- N" with N written in decimal asks for vote N. */
  lemma RevokeSpacedNumber(command: string, n: nat)
    requires command != [] && NoSpace(command) && n <= INT_MAX
    ensures RevokeRequestOf(command + " " + NatToString(n)) == RevokeNumber(n)
  {
    var digits := NatToString(n);
    assert Tight(digits) by {
      assert !IsSpace(digits[0]) && !IsSpace(digits[|digits| - 1]);
    }
    SplitAfterWord(command, digits);
    assert !HasSpace(digits);
    ParseIntOfNatToString(n);
  }

  /** Who owns an entry of the numbering: the direct voter, or whoever added the external vote. */
  function EntryOwner(e: Entry): int {
    match e
    case DirectEntry(u) => u.id
    case ExternalEntry(v) => v.requesterId
  }

  class PollManager {
    var targetVotes: int
    var directVoters: DirectVoters
    var externalVotes: seq<Vote>
    var collectionsPresent: bool
    var telegramMessageId: Option<int>
    var statusMessageId: Option<int>
    var isActive: bool
    /** Every call made to Telegram, oldest first. */
    var events: seq<Event>
    const groupChatId: int

    function State(): PollState
      reads this
    {
      PollState(targetVotes, directVoters, externalVotes, collectionsPresent, telegramMessageId, statusMessageId, isActive)
    }

    predicate Valid()
      reads this
    {
      State().Valid()
    }

    /** `new PollManager(targetGroupChatId)`: no poll, null collections, target 0. */
    constructor(groupChatId: int)
      ensures this.groupChatId == groupChatId
      ensures State() == PollState(0, [], [], false, None, None, false) && events == []
      ensures Valid()
    {
      this.groupChatId := groupChatId;
      targetVotes := 0;
      directVoters := [];
      externalVotes := [];
      collectionsPresent := false;
      telegramMessageId := None;
      statusMessageId := None;
      isActive := false;
      events := [];
    }

    // ------------------------------------------------------------ event sequences

    /** updateStatusMessage: an edit of the status message, when there is one. */
    function StatusEdits(s: PollState): seq<Event> {
      if s.statusMessageId.Some? then [StatusEdited(s.statusMessageId.value, StatusOf(s))] else []
    }

    /** closeDirectPoll: an error when inactive, otherwise a stop of the native poll when it was posted. */
    function StopEvents(s: PollState): seq<Event> {
      if !s.isActive then [ErrorSent(groupChatId, NoActivePoll)]
      else if s.telegramMessageId.Some? then [PollStopped(s.telegramMessageId.value)]
      else []
    }

    /** resetPoll's unpin of the status message, when there is one. */
    function UnpinEvents(s: PollState): seq<Event> {
      if s.statusMessageId.Some? then [StatusUnpinned(s.statusMessageId.value)] else []
    }

    /** resetPoll: inactive, null collections and message ids; the target stays. */
    function Reset(s: PollState): (r: PollState)
      ensures r.Valid() && !r.isActive && r.Positive() == 0 && r.targetVotes == s.targetVotes
    {
      s.(isActive := false, directVoters := [], externalVotes := [], collectionsPresent := false,
         telegramMessageId := None, statusMessageId := None)
    }

    /** checkCompletion from state `s`. */
    function CompletionStep(s: PollState): Step {
      var s1 := s.(collectionsPresent := true);
      if s1.Positive() >= s1.targetVotes then
        var s2 := s1.(isActive := false);
        Step(s2, StopEvents(s1) + StatusEdits(s2) + [Sent(groupChatId, Completion)])
      else Step(s1, StatusEdits(s1))
    }

    /**
     * checkCompletion ends the poll exactly when the positive count has reached
     * the target, keeps every vote, and announces completion only then.
     */
    lemma CompletionSpec(s: PollState)
      requires s.Valid()
      ensures CompletionStep(s).state.Valid()
      ensures CompletionStep(s).state.isActive <==> s.isActive && s.Positive() < s.targetVotes
      ensures CompletionStep(s).state.directVoters == s.directVoters
      ensures CompletionStep(s).state.externalVotes == s.externalVotes
      ensures CompletionStep(s).state.targetVotes == s.targetVotes
      ensures Sent(groupChatId, Completion) in CompletionStep(s).events <==> s.Positive() >= s.targetVotes
    {
      var st := CompletionStep(s);
      if s.Positive() < s.targetVotes {
        assert forall e :: e in StatusEdits(s.(collectionsPresent := true)) ==> e.StatusEdited?;
      } else {
        assert st.events[|st.events| - 1] == Sent(groupChatId, Completion);
      }
    }

    /** addExternalVote from state `s` (after getPositiveVotes has put the collections in place). */
    function AddStep(s: PollState, names: Option<seq<string>>, voteCount: int, requesterId: int, requesterName: string): Step {
      var s1 := s.(collectionsPresent := true);
      var remaining := s1.targetVotes - s1.Positive();
      if remaining <= 0 then Step(s1, [Sent(groupChatId, PollClosed)])
      else if voteCount > remaining then Step(s1, [ErrorSent(groupChatId, TooManyVotes(voteCount, remaining))])
      else
        var s2 := s1.(externalVotes := s1.externalVotes + AddedVotes(names, voteCount, requesterId, requesterName));
        var done := CompletionStep(s2);
        Step(done.state, [Sent(groupChatId, VoteAdded(VoteTextOf(names, voteCount)))] + done.events)
    }

    /**
     * addExternalVote refuses, changing no vote, once the target is reached or
     * when more votes are asked for than remain; otherwise it appends exactly
     * the added votes after the existing ones, leaves the direct votes alone,
     * and (when each asked-for vote is one added vote) never passes the target.
     */
    lemma AddSpec(s: PollState, names: Option<seq<string>>, voteCount: int, requesterId: int, requesterName: string)
      requires s.Valid()
      ensures var r := AddStep(s, names, voteCount, requesterId, requesterName).state;
        var remaining := s.targetVotes - s.Positive();
        r.Valid() && r.directVoters == s.directVoters && r.targetVotes == s.targetVotes
        && (remaining <= 0 || voteCount > remaining ==> r.externalVotes == s.externalVotes && r.isActive == s.isActive)
        && (0 < remaining && voteCount <= remaining ==>
              r.externalVotes == s.externalVotes + AddedVotes(names, voteCount, requesterId, requesterName))
        && (0 < remaining && voteCount <= remaining && (names.Some? && |names.value| > 0 ==> |names.value| == voteCount) ==>
              r.Positive() == s.Positive() + Max0(voteCount) <= s.targetVotes
              && (r.isActive <==> s.isActive && r.Positive() < s.targetVotes))
    {
      var s1 := s.(collectionsPresent := true);
      var remaining := s1.targetVotes - s1.Positive();
      if 0 < remaining && voteCount <= remaining {
        var s2 := s1.(externalVotes := s1.externalVotes + AddedVotes(names, voteCount, requesterId, requesterName));
        CompletionSpec(s2);
      }
    }

    /** handleVoteCommand from state `s`, with the parsed arguments of the message. */
    function VoteCommandStep(s: PollState, args: seq<string>, requesterId: int, requesterName: string, chatId: int): Step {
      if !s.isActive then Step(s, [ErrorSent(chatId, NoActivePoll)])
      else
        match VoteRequestOf(args)
        case RequestFails(_) => Step(s, [])
        case AddAnonymous(count) => AddStep(s, None, count, requesterId, requesterName)
        case AddNamed(names) => AddStep(s, Some(names), |names|, requesterId, requesterName)
    }

    /** handleRevoke(userId, chatId) from state `s`. */
    function RevokeLatestStep(s: PollState, userId: int, chatId: int): Step {
      if !s.isActive then Step(s, [ErrorSent(chatId, NoActivePoll)])
      else
        match LastIndexBy(s.externalVotes, userId)
        case None => Step(s, [ErrorSent(chatId, NoVotesToRevoke)])
        case Some(k) =>
          var s1 := s.(externalVotes := RemoveAt(s.externalVotes, k));
          Step(s1, [Sent(chatId, VoteRevoked)] + StatusEdits(s1))
    }

    /**
     * handleRevoke withdraws, from an active poll, exactly the latest external
     * vote added by `userId`, keeping the order of the others and every direct
     * vote; with no vote of theirs (or no active poll) nothing changes.
     */
    lemma RevokeLatestSpec(s: PollState, userId: int, chatId: int)
      requires s.Valid()
      ensures var r := RevokeLatestStep(s, userId, chatId).state;
        r.Valid() && r.directVoters == s.directVoters
        && (r == s <==> !s.isActive || forall j :: 0 <= j < |s.externalVotes| ==> s.externalVotes[j].requesterId != userId)
        && (r != s ==> exists k :: 0 <= k < |s.externalVotes|
                          && s.externalVotes[k].requesterId == userId
                          && (forall j :: k < j < |s.externalVotes| ==> s.externalVotes[j].requesterId != userId)
                          && r == s.(externalVotes := RemoveAt(s.externalVotes, k))
                          && r.Positive() == s.Positive() - 1)
    {
      if s.isActive {
        match LastIndexBy(s.externalVotes, userId)
        case None =>
        case Some(k) =>
          var r := RevokeLatestStep(s, userId, chatId).state;
          assert |r.externalVotes| < |s.externalVotes|;
      }
    }

    /** revokeVoteByNumber from state `s`. */
    function RevokeNumberStep(s: PollState, voteNumber: int, requesterId: int, chatId: int, admins: set<int>): Step {
      if !s.isActive then Step(s, [ErrorSent(chatId, NoActivePoll)])
      else if voteNumber < 1 then Step(s, [ErrorSent(chatId, InvalidVoteNumber)])
      else if voteNumber <= CountPositive(s.directVoters) then
        RevokeDirectStep(s, voteNumber, PositiveIndex(s.directVoters, voteNumber), requesterId, chatId, admins)
      else if voteNumber <= s.Positive() then
        RevokeExternalStep(s, voteNumber, voteNumber - CountPositive(s.directVoters) - 1, requesterId, chatId, admins)
      else Step(s, [ErrorSent(chatId, VoteNotFound(voteNumber))])
    }

    /** revokeVoteByNumber once entry `voteNumber` has been found as direct voter `k`. */
    function RevokeDirectStep(s: PollState, voteNumber: int, k: nat, requesterId: int, chatId: int, admins: set<int>): Step
      requires k < |s.directVoters|
    {
      var u := s.directVoters[k].user;
      if requesterId in admins || u.id == requesterId then
        var s1 := s.(directVoters := RemoveAt(s.directVoters, k));
        var notice := if requesterId in admins && u.id != requesterId then AdminRevokedDirect(voteNumber, u.firstName)
                      else RevokedDirect(voteNumber, u.firstName);
        Step(s1, [Sent(chatId, notice)] + StatusEdits(s1))
      else Step(s, [ErrorSent(chatId, PermissionDenied)])
    }

    /** revokeVoteByNumber once entry `voteNumber` has been found as external vote `i`. */
    function RevokeExternalStep(s: PollState, voteNumber: int, i: nat, requesterId: int, chatId: int, admins: set<int>): Step
      requires i < |s.externalVotes|
    {
      var v := s.externalVotes[i];
      if requesterId in admins || v.requesterId == requesterId then
        var s1 := s.(externalVotes := RemoveAt(s.externalVotes, i));
        var notice := if requesterId in admins && v.requesterId != requesterId
                      then AdminRevokedExternal(voteNumber, DisplayName(v), v.requesterName)
                      else RevokedExternal(voteNumber, DisplayName(v));
        Step(s1, [Sent(chatId, notice)] + StatusEdits(s1))
      else Step(s, [ErrorSent(chatId, PermissionDenied)])
    }

    /**
     * revokeVoteByNumber removes entry `voteNumber` of the numbering the status
     * list shows (positive direct voters, then external votes) exactly when the
     * poll is active, the number is in 1..count and the requester is an admin or
     * owns that entry; the count then drops by one and the other entries keep
     * their order. In every other case nothing changes.
     */
    lemma RevokeNumberSpec(s: PollState, voteNumber: int, requesterId: int, chatId: int, admins: set<int>)
      requires s.Valid()
      ensures var r := RevokeNumberStep(s, voteNumber, requesterId, chatId, admins).state;
        var c := Combined(s.directVoters, s.externalVotes);
        var permitted := s.isActive && 1 <= voteNumber <= s.Positive()
                         && (requesterId in admins || EntryOwner(c[voteNumber - 1]) == requesterId);
        r.Valid() && r.isActive == s.isActive && r.targetVotes == s.targetVotes
        && (permitted ==> Combined(r.directVoters, r.externalVotes) == c[..voteNumber - 1] + c[voteNumber..]
                          && r.Positive() == s.Positive() - 1)
        && (!permitted ==> r == s)
      ensures var r := RevokeNumberStep(s, voteNumber, requesterId, chatId, admins).state;
        r.collectionsPresent == s.collectionsPresent
        && r.telegramMessageId == s.telegramMessageId && r.statusMessageId == s.statusMessageId
        && (forall e :: e in s.directVoters && e.option != 0 ==> e in r.directVoters)
        && (forall e :: e in r.directVoters ==> e in s.directVoters)
    {
      if s.isActive && 1 <= voteNumber <= CountPositive(s.directVoters) {
        var k := PositiveIndex(s.directVoters, voteNumber);
        RemovePositiveEntry(s.directVoters, s.externalVotes, voteNumber);
        RemoveAtUnique(s.directVoters, k);
        RemoveAtKeepsOthers(s.directVoters, k);
      } else if s.isActive && CountPositive(s.directVoters) < voteNumber <= s.Positive() {
        RemoveExternalEntry(s.directVoters, s.externalVotes, voteNumber - CountPositive(s.directVoters) - 1);
      }
    }

    /** handleRevokeCommand from state `s`. */
    function RevokeCommandStep(s: PollState, text: string, userId: int, chatId: int, admins: set<int>): Step {
      match RevokeRequestOf(text)
      case RevokeLatest => RevokeLatestStep(s, userId, chatId)
      case RevokeNumber(n) => RevokeNumberStep(s, n, userId, chatId, admins)
      case RevokeUsageError => Step(s, [ErrorSent(chatId, RevokeUsage)])
    }

    // ------------------------------------------------------------ collections and status

    /** ensureCollections: null collections become empty ones. */
    method EnsureCollections()
      requires Valid()
      modifies this
      ensures State() == old(State()).(collectionsPresent := true) && events == old(events)
      ensures Valid()
    {
      if !collectionsPresent {
        directVoters := [];
        externalVotes := [];
        collectionsPresent := true;
      }
    }

    /** getPositiveVotes: direct voters for option 0 plus every external vote. */
    method GetPositiveVotes() returns (n: int)
      requires Valid()
      modifies this
      ensures n == old(State()).Positive()
      ensures n == CountPositive(directVoters) + |externalVotes|
      ensures State() == old(State()).(collectionsPresent := true) && events == old(events)
      ensures Valid()
    {
      EnsureCollections();
      n := CountPositive(directVoters) + |externalVotes|;
    }

    /** appendVoteListSimple: positive direct voters in map order, then the external votes, numbered from 1. */
    method AppendVoteListSimple() returns (lines: seq<StatusLine>)
      ensures lines == VoteLines(Combined(directVoters, externalVotes))
    {
      lines := [];
      var voteNumber := 1;
      var i := 0;
      while i < |directVoters|
        invariant 0 <= i <= |directVoters|
        invariant lines == VoteLines(PositiveEntries(directVoters[..i]))
        invariant voteNumber == |lines| + 1
      {
        var entry := directVoters[i];
        assert directVoters[..i + 1][..i] == directVoters[..i];
        if entry.option == 0 {
          lines := lines + [StatusLine(voteNumber, entry.user.firstName, None)];
          voteNumber := voteNumber + 1;
        }
        i := i + 1;
      }
      assert directVoters[..i] == directVoters;
      var direct := PositiveEntries(directVoters);
      var j := 0;
      while j < |externalVotes|
        invariant 0 <= j <= |externalVotes|
        invariant lines == VoteLines(direct + ExternalEntries(externalVotes)[..j])
        invariant voteNumber == |lines| + 1
      {
        var vote := externalVotes[j];
        var voterName := if vote.IsAnonymous() then ANONYMOUS_VOTER else vote.voterName.value;
        lines := lines + [StatusLine(voteNumber, voterName, Some(vote.requesterName))];
        voteNumber := voteNumber + 1;
        j := j + 1;
      }
      assert ExternalEntries(externalVotes)[..j] == ExternalEntries(externalVotes);
    }

    /** buildStatusMessage: the banner, the target, the remaining count while not completed, and the vote list. */
    method BuildStatusMessage() returns (view: StatusView)
      requires Valid() && collectionsPresent
      ensures view == StatusOf(State())
    {
      var currentVotes := CountPositive(directVoters) + |externalVotes|;
      var isCompleted := currentVotes >= targetVotes;
      var remaining := None;
      if !isCompleted {
        remaining := Some(targetVotes - currentVotes);
      }
      var lines := AppendVoteListSimple();
      view := StatusView(isCompleted, targetVotes, remaining, lines);
    }

    /** updateStatusMessage: edit the status message, when there is one, to show the current state. */
    method UpdateStatusMessage()
      requires Valid()
      modifies this
      ensures State() == old(State()) && events == old(events) + StatusEdits(State())
    {
      if statusMessageId.Some? {
        var view := BuildStatusMessage();
        events := events + [StatusEdited(statusMessageId.value, view)];
      }
    }

    /** createStatusMessage: send the status, remember its id (Telegram's answer `statusId`), and pin it. */
    method CreateStatusMessage(statusId: int)
      requires Valid() && collectionsPresent
      modifies this
      ensures State() == old(State()).(statusMessageId := Some(statusId))
      ensures events == old(events) + [StatusSent(StatusOf(old(State()))), StatusPinned(statusId)]
      ensures Valid()
    {
      var view := BuildStatusMessage();
      events := events + [StatusSent(view)];
      statusMessageId := Some(statusId);
      events := events + [StatusPinned(statusId)];
    }

    // ------------------------------------------------------------ lifecycle

    /** resetPoll: unpin the status message, then forget the poll. */
    method ResetPoll()
      modifies this
      ensures State() == Reset(old(State())) && events == old(events) + UnpinEvents(old(State()))
      ensures Valid()
    {
      if statusMessageId.Some? {
        events := events + [StatusUnpinned(statusMessageId.value)];
      }
      isActive := false;
      directVoters := [];
      externalVotes := [];
      collectionsPresent := false;
      telegramMessageId := None;
      statusMessageId := None;
    }

    /** closeDirectPoll: stop the native poll; an error notice to the group when there is no active poll. */
    method CloseDirectPoll()
      modifies this
      ensures State() == old(State()) && events == old(events) + StopEvents(old(State()))
    {
      if !isActive {
        events := events + [ErrorSent(groupChatId, NoActivePoll)];
        return;
      }
      if telegramMessageId.None? {
        return;
      }
      events := events + [PollStopped(telegramMessageId.value)];
    }

    /**
     * createAndPostPoll: reset any active poll, start a fresh active one with
     * an empty ledger, then send the native poll. A refused send is thrown
     * with the poll left active and without message ids; a delivered one
     * records its id, posts and pins the status and confirms to `chatId`.
     */
    method CreateAndPostPoll(question: string, positiveOption: string, negativeOption: string, target: int,
                             chatId: int, answer: SendAnswer, statusId: int) returns (r: Outcome<JavaException>)
      requires Valid()
      modifies this
      ensures Valid()
      ensures r.Pass? <==> answer.Delivered?
      ensures answer.Refused? ==> r.error == TelegramApi(answer.reason)
      ensures isActive && targetVotes == target && directVoters == [] && externalVotes == [] && collectionsPresent
      ensures answer.Refused? ==>
        telegramMessageId == None && statusMessageId == None
        && events == old(events) + (if old(isActive) then UnpinEvents(old(State())) else [])
                                 + [PollSent(question, positiveOption, negativeOption)]
      ensures answer.Delivered? ==>
        telegramMessageId == Some(answer.messageId) && statusMessageId == Some(statusId)
        && events == old(events) + (if old(isActive) then UnpinEvents(old(State())) else [])
                                 + [PollSent(question, positiveOption, negativeOption),
                                    StatusSent(StatusOf(PollState(target, [], [], true, Some(answer.messageId), None, true))),
                                    StatusPinned(statusId), Sent(chatId, PollCreated)]
    {
      if isActive {
        ResetPoll();
      }
      ghost var prefix := events;
      OpenPoll(target);
      events := events + [PollSent(question, positiveOption, negativeOption)];
      match answer
      case Refused(reason) =>
        return Fail(TelegramApi(reason));
      case Delivered(messageId) =>
        AnnouncePoll(messageId, statusId, chatId);
        assert events == prefix + [PollSent(question, positiveOption, negativeOption),
                                   StatusSent(StatusOf(PollState(target, [], [], true, Some(messageId), None, true))),
                                   StatusPinned(statusId), Sent(chatId, PollCreated)];
        return Pass;
    }

    /** The fresh active poll createAndPostPoll starts before it sends anything. */
    method OpenPoll(target: int)
      modifies this`targetVotes, this`directVoters, this`externalVotes, this`collectionsPresent,
               this`telegramMessageId, this`statusMessageId, this`isActive
      ensures State() == PollState(target, [], [], true, None, None, true)
      ensures Valid()
    {
      targetVotes := target;
      directVoters := [];
      externalVotes := [];
      collectionsPresent := true;
      telegramMessageId := None;
      statusMessageId := None;
      isActive := true;
    }

    /** The delivered branch of createAndPostPoll: record the poll's id, post and pin the status, confirm. */
    method AnnouncePoll(messageId: int, statusId: int, chatId: int)
      requires State() == PollState(targetVotes, [], [], true, None, None, true)
      modifies this
      ensures State() == PollState(old(targetVotes), [], [], true, Some(messageId), Some(statusId), true)
      ensures events == old(events) + [StatusSent(StatusOf(PollState(old(targetVotes), [], [], true, Some(messageId), None, true))),
                                       StatusPinned(statusId), Sent(chatId, PollCreated)]
    {
      telegramMessageId := Some(messageId);
      CreateStatusMessage(statusId);
      events := events + [Sent(chatId, PollCreated)];
    }

    /** initializePoll: an active poll with an empty ledger for a native poll that was already sent; posts the status. */
    method InitializePoll(target: int, messageId: Option<int>, statusId: int)
      modifies this
      ensures State() == PollState(target, [], [], true, messageId, Some(statusId), true)
      ensures events == old(events) + [StatusSent(StatusOf(PollState(target, [], [], true, messageId, None, true))),
                                       StatusPinned(statusId)]
      ensures Valid()
    {
      targetVotes := target;
      directVoters := [];
      externalVotes := [];
      collectionsPresent := true;
      telegramMessageId := messageId;
      statusMessageId := None;
      isActive := true;
      CreateStatusMessage(statusId);
    }

    /** checkCompletion: at the target, stop the native poll, end the poll, refresh the status and announce it. */
    method CheckCompletion()
      requires Valid()
      modifies this
      ensures State() == CompletionStep(old(State())).state
      ensures events == old(events) + CompletionStep(old(State())).events
      ensures Valid()
    {
      var positive := GetPositiveVotes();
      if positive >= targetVotes {
        CloseDirectPoll();
        isActive := false;
        UpdateStatusMessage();
        events := events + [Sent(groupChatId, Completion)];
      } else {
        UpdateStatusMessage();
      }
    }

    /** closeCurrentPoll: stop and reset the poll, acknowledging the admin's button either way. */
    method CloseCurrentPoll()
      requires Valid()
      modifies this
      ensures !old(isActive) ==> State() == old(State()) && events == old(events) + [Acknowledged(NoActivePoll)]
      ensures old(isActive) ==>
        State() == Reset(old(State()))
        && events == old(events) + StopEvents(old(State())) + UnpinEvents(old(State())) + [Acknowledged(PollClosed)]
      ensures Valid()
    {
      if !isActive {
        events := events + [Acknowledged(NoActivePoll)];
        return;
      }
      CloseDirectPoll();
      ResetPoll();
      events := events + [Acknowledged(PollClosed)];
    }

    /** closeCurrentPollSilent: as closeCurrentPoll without acknowledgements; tells whether there was a poll. */
    method CloseCurrentPollSilent() returns (closed: bool)
      requires Valid()
      modifies this
      ensures closed == old(isActive)
      ensures !closed ==> State() == old(State()) && events == old(events)
      ensures closed ==> State() == Reset(old(State())) && events == old(events) + StopEvents(old(State())) + UnpinEvents(old(State()))
      ensures Valid()
    {
      if !isActive {
        return false;
      }
      CloseDirectPoll();
      ResetPoll();
      return true;
    }

    /** checkMondayClose: close an active poll; nothing otherwise. */
    method CheckMondayClose()
      requires Valid()
      modifies this
      ensures !old(isActive) ==> State() == old(State()) && events == old(events)
      ensures old(isActive) ==> State() == Reset(old(State())) && events == old(events) + StopEvents(old(State())) + UnpinEvents(old(State()))
      ensures Valid()
    {
      if isActive {
        CloseDirectPoll();
        ResetPoll();
      }
    }

    // ------------------------------------------------------------ votes

    /** The two append loops of addExternalVote: one vote per trimmed name, or `voteCount` anonymous votes. */
    method AppendVotes(names: Option<seq<string>>, voteCount: int, requesterId: int, requesterName: string)
      requires Valid() && collectionsPresent
      modifies this
      ensures State() == old(State()).(externalVotes := old(externalVotes) + AddedVotes(names, voteCount, requesterId, requesterName))
      ensures events == old(events)
      ensures Valid()
    {
      if names.Some? && |names.value| > 0 {
        AppendNamedVotes(names.value, requesterId, requesterName);
      } else {
        AppendAnonymousVotes(voteCount, requesterId, requesterName);
      }
    }

    /** `for (String name : names) externalVotes.add(new Vote(requesterId, requesterName, name.trim()))`. */
    method AppendNamedVotes(names: seq<string>, requesterId: int, requesterName: string)
      modifies this`externalVotes
      ensures externalVotes == old(externalVotes) + NamedVotes(names, requesterId, requesterName)
    {
      var i := 0;
      while i < |names|
        invariant 0 <= i <= |names|
        invariant externalVotes == old(externalVotes) + NamedVotes(names[..i], requesterId, requesterName)
      {
        assert names[..i + 1][..i] == names[..i];
        externalVotes := externalVotes + [NewVote(requesterId, requesterName, Some(Trim(names[i])))];
        i := i + 1;
      }
      assert names[..i] == names;
    }

    /** `for (int i = 0; i < voteCount; i++) externalVotes.add(new Vote(requesterId, requesterName))`. */
    method AppendAnonymousVotes(voteCount: int, requesterId: int, requesterName: string)
      modifies this`externalVotes
      ensures externalVotes == old(externalVotes) + AnonymousVotes(Max0(voteCount), requesterId, requesterName)
    {
      var i := 0;
      while i < voteCount
        invariant 0 <= i <= Max0(voteCount)
        invariant externalVotes == old(externalVotes) + AnonymousVotes(i, requesterId, requesterName)
      {
        externalVotes := externalVotes + [NewAnonymousVote(requesterId, requesterName)];
        i := i + 1;
      }
    }

    /**
     * addExternalVote: votes added by `requesterId` against the remaining
     * capacity (it does not look at whether the poll is active).
     */
    method AddExternalVote(names: Option<seq<string>>, voteCount: int, requesterId: int, requesterName: string)
      requires Valid()
      modifies this
      ensures State() == AddStep(old(State()), names, voteCount, requesterId, requesterName).state
      ensures events == old(events) + AddStep(old(State()), names, voteCount, requesterId, requesterName).events
      ensures Valid()
    {
      var currentVotes := GetPositiveVotes();
      var remaining := targetVotes - currentVotes;
      if remaining <= 0 {
        events := events + [Sent(groupChatId, PollClosed)];
        return;
      }
      if voteCount > remaining {
        events := events + [ErrorSent(groupChatId, TooManyVotes(voteCount, remaining))];
        return;
      }
      AdmitVotes(names, voteCount, requesterId, requesterName);
    }

    /** The admitting part of addExternalVote: append the votes, confirm them, then checkCompletion. */
    method AdmitVotes(names: Option<seq<string>>, voteCount: int, requesterId: int, requesterName: string)
      requires Valid() && collectionsPresent
      modifies this
      ensures var s2 := old(State()).(externalVotes := old(externalVotes) + AddedVotes(names, voteCount, requesterId, requesterName));
        State() == CompletionStep(s2).state
        && events == old(events) + ([Sent(groupChatId, VoteAdded(VoteTextOf(names, voteCount)))] + CompletionStep(s2).events)
      ensures Valid()
    {
      AppendVotes(names, voteCount, requesterId, requesterName);
      ghost var s2 := State();
      var voteText := if names.None? then (if voteCount == 1 then AnonymousSingle else AnonymousMultiple(voteCount))
                      else (if voteCount == 1 then NamedSingle(names.value) else NamedMultiple(names.value));
      assert voteText == VoteTextOf(names, voteCount);
      var added := Sent(groupChatId, VoteAdded(voteText));
      events := events + [added];
      ghost var mid := events;
      CheckCompletion();
      assert State() == CompletionStep(s2).state;
      assert events == old(events) + [added] + CompletionStep(s2).events;
      assert old(events) + [added] + CompletionStep(s2).events == old(events) + ([added] + CompletionStep(s2).events);
    }

    /**
     * handleVoteCommand: "/+" from `requesterId` in chat `chatId`, whose text
     * is `text`. A number above 12, or one too large for an int, is thrown.
     */
    method HandleVoteCommand(text: string, requesterId: int, requesterName: string, chatId: int)
      returns (r: Outcome<JavaException>)
      requires Valid()
      modifies this
      ensures var args := ParseArguments(Some(text));
        r.Fail? <==> old(isActive) && VoteRequestOf(args).RequestFails?
      ensures r.Fail? ==> r.error == VoteRequestOf(ParseArguments(Some(text))).error
      ensures var step := VoteCommandStep(old(State()), ParseArguments(Some(text)), requesterId, requesterName, chatId);
        State() == step.state && events == old(events) + step.events
      ensures Valid()
    {
      if !isActive {
        events := events + [ErrorSent(chatId, NoActivePoll)];
        return Pass;
      }
      var args := ParseArguments(Some(text));
      if |args| == 0 {
        AddExternalVote(None, 1, requesterId, requesterName);
      } else if |args| == 1 && AllDigits(args[0]) {
        match ParseInt(args[0])
        case None =>
          return Fail(NumberFormat);
        case Some(count) =>
          if count > MAX_VOTES_PER_COMMAND {
            return Fail(IllegalArgument(DEFAULT_ERROR));
          }
          AddExternalVote(None, count, requesterId, requesterName);
      } else {
        AddExternalVote(Some(args), |args|, requesterId, requesterName);
      }
      return Pass;
    }

    /** handleDirectVote: an answer in the native poll; an empty answer withdraws the user's choice. */
    method HandleDirectVote(user: User, optionIds: seq<int>)
      requires Valid()
      modifies this
      ensures !old(isActive) ==> State() == old(State()) && events == old(events)
      ensures old(isActive) ==>
        var step := CompletionStep(old(State()).(directVoters := ApplyAnswer(old(directVoters), user, optionIds)));
        State() == step.state && events == old(events) + step.events
      ensures Valid()
    {
      if !isActive {
        return;
      }
      ApplyAnswerSpec(directVoters, user, optionIds);
      if optionIds == [] {
        directVoters := RemoveUser(directVoters, user);
      } else {
        directVoters := Put(directVoters, user, optionIds[0]);
      }
      CheckCompletion();
    }

    // ------------------------------------------------------------ revocation

    /** handleRevoke(userId, chatId): withdraw the latest external vote added by `userId`. */
    method HandleRevoke(userId: int, chatId: int)
      requires Valid()
      modifies this
      ensures State() == RevokeLatestStep(old(State()), userId, chatId).state
      ensures events == old(events) + RevokeLatestStep(old(State()), userId, chatId).events
      ensures Valid()
    {
      if !isActive {
        events := events + [ErrorSent(chatId, NoActivePoll)];
        return;
      }
      var found := false;
      var i := |externalVotes|;
      while i > 0
        invariant 0 <= i <= |externalVotes|
        invariant forall j :: i <= j < |externalVotes| ==> externalVotes[j].requesterId != userId
        invariant State() == old(State()) && events == old(events) && !found
      {
        i := i - 1;
        if externalVotes[i].requesterId == userId {
          externalVotes := RemoveAt(externalVotes, i);
          found := true;
          break;
        }
      }
      if found {
        events := events + [Sent(chatId, VoteRevoked)];
        UpdateStatusMessage();
      } else {
        events := events + [ErrorSent(chatId, NoVotesToRevoke)];
      }
    }

    /**
     * revokeVoteByNumber: withdraw entry `voteNumber` of the numbering the
     * status list shows, if `requesterId` is an admin (one of `admins`) or
     * owns that entry.
     */
    method RevokeVoteByNumber(voteNumber: int, requesterId: int, chatId: int, admins: set<int>)
      requires Valid()
      modifies this
      ensures State() == RevokeNumberStep(old(State()), voteNumber, requesterId, chatId, admins).state
      ensures events == old(events) + RevokeNumberStep(old(State()), voteNumber, requesterId, chatId, admins).events
      ensures Valid()
    {
      if !isActive {
        events := events + [ErrorSent(chatId, NoActivePoll)];
        return;
      }
      if voteNumber < 1 {
        events := events + [ErrorSent(chatId, InvalidVoteNumber)];
        return;
      }
      var currentNumber := 1;
      var i := 0;
      while i < |directVoters|
        invariant 0 <= i <= |directVoters|
        invariant currentNumber == CountPositive(directVoters[..i]) + 1 <= voteNumber
        invariant State() == old(State()) && events == old(events)
      {
        var entry := directVoters[i];
        CountPositiveStep(directVoters, i);
        if entry.option == 0 {
          if currentNumber == voteNumber {
            PositiveIndexUnique(directVoters, voteNumber, i);
            RevokeDirectAt(i, voteNumber, requesterId, chatId, admins);
            return;
          }
          currentNumber := currentNumber + 1;
        }
        i := i + 1;
      }
      assert directVoters[..i] == directVoters;
      var j := 0;
      while j < |externalVotes|
        invariant 0 <= j <= |externalVotes|
        invariant currentNumber == CountPositive(directVoters) + j + 1 <= voteNumber
        invariant State() == old(State()) && events == old(events)
      {
        if currentNumber == voteNumber {
          RevokeExternalAt(j, voteNumber, requesterId, chatId, admins);
          return;
        }
        currentNumber := currentNumber + 1;
        j := j + 1;
      }
      events := events + [ErrorSent(chatId, VoteNotFound(voteNumber))];
    }

    /** The found-direct-voter branch of revokeVoteByNumber: entry `voteNumber` is directVoters[k]. */
    method RevokeDirectAt(k: nat, voteNumber: int, requesterId: int, chatId: int, admins: set<int>)
      requires Valid() && k < |directVoters|
      modifies this
      ensures State() == RevokeDirectStep(old(State()), voteNumber, k, requesterId, chatId, admins).state
      ensures events == old(events) + RevokeDirectStep(old(State()), voteNumber, k, requesterId, chatId, admins).events
      ensures Valid()
    {
      var isAdmin := requesterId in admins;
      var entry := directVoters[k];
      if isAdmin || entry.user.id == requesterId {
        var voterName := entry.user.firstName;
        RemoveAtUnique(directVoters, k);
        directVoters := RemoveAt(directVoters, k);
        var message := if isAdmin && entry.user.id != requesterId then AdminRevokedDirect(voteNumber, voterName)
                       else RevokedDirect(voteNumber, voterName);
        events := events + [Sent(chatId, message)];
        UpdateStatusMessage();
      } else {
        events := events + [ErrorSent(chatId, PermissionDenied)];
      }
    }

    /** The found-external-vote branch of revokeVoteByNumber: entry `voteNumber` is externalVotes[j]. */
    method RevokeExternalAt(j: nat, voteNumber: int, requesterId: int, chatId: int, admins: set<int>)
      requires Valid() && j < |externalVotes|
      modifies this
      ensures State() == RevokeExternalStep(old(State()), voteNumber, j, requesterId, chatId, admins).state
      ensures events == old(events) + RevokeExternalStep(old(State()), voteNumber, j, requesterId, chatId, admins).events
      ensures Valid()
    {
      var isAdmin := requesterId in admins;
      var vote := externalVotes[j];
      if isAdmin || vote.requesterId == requesterId {
        var voterName := if vote.IsAnonymous() then ANONYMOUS_VOTER else vote.voterName.value;
        var requesterName := vote.requesterName;
        externalVotes := RemoveAt(externalVotes, j);
        var message := if isAdmin && vote.requesterId != requesterId
                       then AdminRevokedExternal(voteNumber, voterName, requesterName)
                       else RevokedExternal(voteNumber, voterName);
        events := events + [Sent(chatId, message)];
        UpdateStatusMessage();
      } else {
        events := events + [ErrorSent(chatId, PermissionDenied)];
      }
    }

    /**
     * handleRevokeCommand: "/-" alone revokes the caller's latest vote, "/- N"
     * vote N; anything else, or an N that is not an int, gets the usage notice.
     */
    method HandleRevokeCommand(text: string, userId: int, chatId: int, admins: set<int>)
      requires Valid()
      modifies this
      ensures State() == RevokeCommandStep(old(State()), text, userId, chatId, admins).state
      ensures events == old(events) + RevokeCommandStep(old(State()), text, userId, chatId, admins).events
      ensures Valid()
    {
      var parts := SplitWhitespace(text);
      if |parts| == 1 {
        HandleRevoke(userId, chatId);
      } else if |parts| == 2 {
        match ParseInt(parts[1])
        case Some(voteNumber) =>
          RevokeVoteByNumber(voteNumber, userId, chatId, admins);
        case None =>
          events := events + [ErrorSent(chatId, RevokeUsage)];
      } else {
        events := events + [ErrorSent(chatId, RevokeUsage)];
      }
    }
  }

  /** handleDirectVote's change to the map: remove on an empty answer, otherwise put the first option. */
  function ApplyAnswer(dv: DirectVoters, user: User, optionIds: seq<int>): DirectVoters {
    if optionIds == [] then RemoveUser(dv, user) else Put(dv, user, optionIds[0])
  }

  /** An answer keeps the users unique and changes the user's own entry only: removed, or set to the first option. */
  lemma ApplyAnswerSpec(dv: DirectVoters, user: User, optionIds: seq<int>)
    requires UniqueUsers(dv)
    ensures UniqueUsers(ApplyAnswer(dv, user, optionIds))
    ensures optionIds == [] ==> ToMap(ApplyAnswer(dv, user, optionIds)) == ToMap(dv) - {user}
    ensures optionIds != [] ==> ToMap(ApplyAnswer(dv, user, optionIds)) == ToMap(dv)[user := optionIds[0]]
  {
    if optionIds == [] {
      RemoveUserSpec(dv, user);
    } else {
      PutSpec(dv, user, optionIds[0]);
    }
  }
}
