/**
 * An external vote (models/Vote.java): who asked for it and, optionally, the
 * name of the person it is cast for. A vote without a usable name is anonymous.
 */
module Votes {
  import opened Wrappers
  import opened JavaText

  /**
   * `voterName` is None where the Java field is null. The random vote id is
   * opaque and not part of the model, so two votes with the same fields are equal.
   */
  datatype Vote = Vote(requesterId: int, requesterName: string, voterName: Option<string>) {

    /** The isAnonymous flag the constructor computes once. */
    predicate IsAnonymous() {
      voterName.None? || IsBlank(voterName.value)
    }
  }

  /** `new Vote(requesterId, requesterName, voterName)`: the getters return what was passed. */
  function NewVote(requesterId: int, requesterName: string, voterName: Option<string>): (v: Vote)
    ensures v.requesterId == requesterId && v.requesterName == requesterName && v.voterName == voterName
  {
    Vote(requesterId, requesterName, voterName)
  }

  /** isAnonymous holds exactly when the name is null or made only of characters up to U+0020. */
  lemma AnonymityRule(requesterId: int, requesterName: string, voterName: Option<string>)
    ensures NewVote(requesterId, requesterName, voterName).IsAnonymous() <==>
      voterName.None? || forall k :: 0 <= k < |voterName.value| ==> IsTrimmable(voterName.value[k])
  {
    if voterName.Some? {
      BlankIffAllTrimmable(voterName.value);
    }
  }

  /** `new Vote(requesterId, requesterName)`: the voter name is null, so the vote is anonymous. */
  function NewAnonymousVote(requesterId: int, requesterName: string): (v: Vote)
    ensures v.requesterId == requesterId && v.requesterName == requesterName
    ensures v.voterName == None && v.IsAnonymous()
  {
    NewVote(requesterId, requesterName, None)
  }

  /** A vote for a name holding any character above U+0020 is not anonymous. */
  lemma NamedVoteIsNotAnonymous(requesterId: int, requesterName: string, name: string, k: nat)
    requires k < |name| && !IsTrimmable(name[k])
    ensures !NewVote(requesterId, requesterName, Some(name)).IsAnonymous()
    ensures NewVote(requesterId, requesterName, Some(name)).voterName == Some(name)
  {
    BlankIffAllTrimmable(name);
  }

  /** A vote for a name made only of characters up to U+0020 (the empty name included) is anonymous. */
  lemma BlankNamedVoteIsAnonymous(requesterId: int, requesterName: string, name: string)
    requires forall k :: 0 <= k < |name| ==> IsTrimmable(name[k])
    ensures NewVote(requesterId, requesterName, Some(name)).IsAnonymous()
  {
    BlankIffAllTrimmable(name);
  }
}
