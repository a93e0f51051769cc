/** The role-based authorisation gate (`RequiredRoleInterceptor`).

    A call to a method guarded by `@RequiredRole` goes ahead only for a
    logged-in user who holds at least one of the listed roles; otherwise it is
    rejected with 401 and the method is never entered. */
module RequiredRoleInterceptor {
  import opened Wrappers
  import Seqs

  const StatusUnauthorized: int := 401

  /** A `@RequiredRole` annotation: the roles it lists. */
  datatype RequiredRole = RequiredRole(value: seq<string>)

  /** The intercepted call: the annotations on the method and on the target
      class, and what `proceed()` would return. */
  datatype Invocation<T> = Invocation(
    methodAnnotation: Option<RequiredRole>,
    classAnnotation: Option<RequiredRole>,
    proceedResult: T)

  /** Why a call was refused, with the message-bundle key it uses. */
  datatype Denial = UserNotAuthenticated | DoesNotHaveRole(roles: seq<string>)

  /** What `manage` does with the call: lets it proceed and returns its
      result, throws the security exception with a status, or fails with a
      null pointer because neither the method nor the class is annotated. */
  datatype Outcome<T> = Proceeded(value: T) | SecurityFailure(status: int, denial: Denial) | NoAnnotation

  /** `getRoles`: the method's annotation takes precedence over the class's;
      `None` stands for the null annotation the class lookup can return. */
  function GetRoles<T>(ic: Invocation<T>): (roles: Option<seq<string>>)
    ensures ic.methodAnnotation.Some? ==> roles == Some(ic.methodAnnotation.value.value)
    ensures ic.methodAnnotation.None? ==>
      (roles.Some? <==> ic.classAnnotation.Some?) &&
      (roles.Some? ==> roles.value == ic.classAnnotation.value.value)
  {
    match ic.methodAnnotation
    case Some(a) => Some(a.value)
    case None =>
      match ic.classAnnotation
      case Some(a) => Some(a.value)
      case None => None
  }

  /** `manage`: the roles are read first, then the login is checked, then
      the held roles are collected in the order the annotation lists them. */
  method Manage<T(==)>(ic: Invocation<T>, loggedIn: bool, hasRole: string -> bool)
    returns (out: Outcome<T>, userRoles: seq<string>)
    ensures GetRoles(ic).None? ==> out == NoAnnotation
    // not logged in: 401 before any role is consulted
    ensures GetRoles(ic).Some? && !loggedIn ==>
      out == SecurityFailure(StatusUnauthorized, UserNotAuthenticated) && userRoles == []
    // the collected roles are the held ones, in annotation order
    ensures GetRoles(ic).Some? && loggedIn ==>
      && userRoles == Seqs.Filter(GetRoles(ic).value, hasRole)
      && Seqs.IsSubsequence(userRoles, GetRoles(ic).value)
      && (forall i :: 0 <= i < |userRoles| ==> hasRole(userRoles[i]))
      && (forall i :: 0 <= i < |GetRoles(ic).value| && hasRole(GetRoles(ic).value[i]) ==> GetRoles(ic).value[i] in userRoles)
    // the call proceeds exactly for a logged-in holder of some listed role
    ensures out.Proceeded? <==>
      GetRoles(ic).Some? && loggedIn && exists i :: 0 <= i < |GetRoles(ic).value| && hasRole(GetRoles(ic).value[i])
    ensures out.Proceeded? ==> out.value == ic.proceedResult
    // an empty role list shuts out every logged-in user
    ensures GetRoles(ic) == Some([]) && loggedIn ==> out == SecurityFailure(StatusUnauthorized, DoesNotHaveRole([]))
    ensures GetRoles(ic).Some? && loggedIn && !out.Proceeded? ==>
      out == SecurityFailure(StatusUnauthorized, DoesNotHaveRole(GetRoles(ic).value))
  {
    userRoles := [];
    var required := GetRoles(ic);
    if required.None? {
      return NoAnnotation, userRoles;
    }
    var roles := required.value;
    if !loggedIn {
      return SecurityFailure(StatusUnauthorized, UserNotAuthenticated), userRoles;
    }
    var i := 0;
    while i < |roles|
      invariant 0 <= i <= |roles|
      invariant userRoles == Seqs.Filter(roles[..i], hasRole)
    {
      Seqs.FilterAppend(roles[..i], roles[i], hasRole);
      assert roles[..i + 1] == roles[..i] + [roles[i]];
      if hasRole(roles[i]) {
        userRoles := userRoles + [roles[i]];
      }
      i := i + 1;
    }
    assert roles[..i] == roles;
    Seqs.FilterIsSubsequence(roles, hasRole);
    if |userRoles| == 0 {
      return SecurityFailure(StatusUnauthorized, DoesNotHaveRole(roles)), userRoles;
    }
    out := Proceeded(ic.proceedResult);
  }
}
