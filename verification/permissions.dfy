/** `IsOwnerOrReadOnly.has_object_permission`: reads are open to everyone,
    writes only to the object's owner, where a lesson's owner is the creator
    of its course. The rule is a stand-alone predicate: no view attaches it. */
module Permissions {
  import opened Common
  import opened CourseModels

  /** `permissions.SAFE_METHODS`. */
  const SafeMethods: set<string> := {"GET", "HEAD", "OPTIONS"}

  /** The object a permission is asked about. A lesson comes with the course
      its `course` field resolves to. */
  datatype Target =
    | CourseTarget(course: Course)
    | LessonTarget(lesson: Lesson, parent: Course)

  /** The resolved owner: `created_by` when the object has it (a course),
      otherwise `course.created_by` (a lesson). */
  function Owner(t: Target): (owner: nat)
    ensures t.CourseTarget? ==> owner == t.course.createdBy
    ensures t.LessonTarget? ==> owner == t.parent.createdBy
  {
    match t
    case CourseTarget(c) => c.createdBy
    case LessonTarget(_, c) => c.createdBy
  }

  function HasObjectPermission(requester: Requester, httpMethod: string, t: Target): (allowed: bool)
    ensures httpMethod in SafeMethods ==> allowed
    ensures httpMethod !in SafeMethods ==> (allowed <==> requester == Authenticated(Owner(t)))
  {
    if httpMethod in SafeMethods then true
    else Authenticated(Owner(t)) == requester
  }

  /** GET, HEAD and OPTIONS pass for any requester on any object, anonymous included. */
  lemma SafeMethodsAlwaysPass(requester: Requester, t: Target)
    ensures HasObjectPermission(requester, "GET", t)
    ensures HasObjectPermission(requester, "HEAD", t)
    ensures HasObjectPermission(requester, "OPTIONS", t)
  {
  }

  /** An anonymous requester can never write. */
  lemma AnonymousCannotWrite(httpMethod: string, t: Target)
    requires httpMethod !in SafeMethods
    ensures !HasObjectPermission(Anonymous, httpMethod, t)
  {
  }

  /** A lesson's permissions are those of the course it comes with, for every
      requester and method: the rule looks only at that course. That the
      course is the one the lesson's `course` field names in the table is
      the business of CourseViews.LessonListIsWritableSet. */
  lemma LessonPermissionIsCoursePermission(requester: Requester, httpMethod: string, l: Lesson, c: Course)
    ensures HasObjectPermission(requester, httpMethod, LessonTarget(l, c))
         == HasObjectPermission(requester, httpMethod, CourseTarget(c))
  {
  }

  /** Two different users never both hold write permission on the same object. */
  lemma WriteOwnerIsUnique(u: nat, v: nat, httpMethod: string, t: Target)
    requires httpMethod !in SafeMethods
    requires HasObjectPermission(Authenticated(u), httpMethod, t)
    requires HasObjectPermission(Authenticated(v), httpMethod, t)
    ensures u == v
  {
  }
}
