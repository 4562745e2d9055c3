/** IsOwnerOrReadOnly (backend/api/permissions.py). */
module Permissions {
  import opened Models

  /** rest_framework.permissions.SAFE_METHODS */
  const SafeMethods: set<string> := {"GET", "HEAD", "OPTIONS"}

  /** Object-level check: reading is open to everyone, changing is for the author. */
  function HasObjectPermission(verb: string, author: UserId, user: Requester): (allowed: bool)
    ensures verb in SafeMethods ==> allowed
    ensures verb !in SafeMethods ==> (allowed <==> user.Authenticated? && user.id == author)
  {
    verb in SafeMethods || user == Authenticated(author)
  }

  /** For a read-only verb neither the author nor the user matters. */
  lemma SafeMethodIgnoresParties(verb: string, a1: UserId, a2: UserId, u1: Requester, u2: Requester)
    requires verb in SafeMethods
    ensures HasObjectPermission(verb, a1, u1) == HasObjectPermission(verb, a2, u2)
  {
  }

  /** Someone other than the author, or an anonymous visitor, can never change an object. */
  lemma NonAuthorNeverWrites(verb: string, author: UserId, user: Requester)
    requires verb !in SafeMethods
    requires user != Authenticated(author)
    ensures !HasObjectPermission(verb, author, user)
  {
  }
}
