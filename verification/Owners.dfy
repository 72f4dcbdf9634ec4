/** Owner claims and the ownership relation that every session operation checks. */
module Owners {
  import opened Wrappers

  datatype OwnerClaims = OwnerClaims(
    executionId: Option<string>,
    workflowId: Option<string>,
    taskId: Option<string>,
    agentId: Option<string>,
    workspaceId: Option<string>,
    userId: Option<string>,
    actor: Option<string>)
  {
    function IdentityKey(): IdentityKey {
      Key(executionId, workspaceId, userId, actor)
    }

    /** True when some part of the identity key is a non-empty string. */
    predicate IsIdentified() {
      Truthy(executionId) || Truthy(workspaceId) || Truthy(userId) || Truthy(actor)
    }

    /** The caller `this` may use what `recorded` registered. */
    predicate Owns(recorded: OwnerClaims) {
      if !IsIdentified() || !recorded.IsIdentified() then
        this == recorded
      else
        && Admits(recorded.executionId, executionId)
        && Admits(recorded.workspaceId, workspaceId)
        && Admits(recorded.userId, userId)
        && Admits(recorded.actor, actor)
    }
  }

  datatype IdentityKey = Key(
    executionId: Option<string>,
    workspaceId: Option<string>,
    userId: Option<string>,
    actor: Option<string>)

  predicate Truthy(value: Option<string>) {
    value.Some? && value.value != ""
  }

  predicate Admits(expected: Option<string>, actual: Option<string>) {
    expected.None? || expected == actual
  }

  lemma OwnsIsReflexive(a: OwnerClaims)
    ensures a.Owns(a)
  {
  }

  /** Ownership is transitive over all owners, identified or not. */
  lemma OwnsIsTransitive(a: OwnerClaims, b: OwnerClaims, c: OwnerClaims)
    requires a.Owns(b) && b.Owns(c)
    ensures a.Owns(c)
  {
  }

  /** Two identified owners own each other exactly when their identity keys agree. */
  lemma MutualOwnershipIsEqualKeys(a: OwnerClaims, b: OwnerClaims)
    requires a.IsIdentified() && b.IsIdentified()
    ensures a.Owns(b) && b.Owns(a) <==> a.IdentityKey() == b.IdentityKey()
  {
  }

  /** An owner is identified by any one claim of its key that is not empty. */
  lemma IdentifiedExactly(a: OwnerClaims)
    ensures a.IsIdentified() <==> exists claim :: claim in [a.executionId, a.workspaceId, a.userId, a.actor]
                                                  && claim != None && claim != Some("")
  {
    var claims := [a.executionId, a.workspaceId, a.userId, a.actor];
    assert claims[0] in claims && claims[1] in claims && claims[2] in claims && claims[3] in claims;
  }

  /** An identified owner owns an identified record exactly when it makes every claim the record makes. */
  lemma OwnsExactly(a: OwnerClaims, recorded: OwnerClaims)
    requires a.IsIdentified() && recorded.IsIdentified()
    ensures a.Owns(recorded) <==>
      && (recorded.executionId != None ==> a.executionId == recorded.executionId)
      && (recorded.workspaceId != None ==> a.workspaceId == recorded.workspaceId)
      && (recorded.userId != None ==> a.userId == recorded.userId)
      && (recorded.actor != None ==> a.actor == recorded.actor)
  {
  }

  /** Without identification, only the very same claims own. */
  lemma UnidentifiedOwnsExactly(a: OwnerClaims, recorded: OwnerClaims)
    requires !a.IsIdentified() || !recorded.IsIdentified()
    ensures a.Owns(recorded) <==> a == recorded
  {
  }
}
