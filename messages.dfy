/**
 * The conversation turns both route handlers receive, reduced to the two fields the
 * handlers read: `role` and `content`.
 */
module Messages {
  import opened Wrappers

  /** One element of an array content: its `type` and `text` fields, each when it is a string. */
  datatype Part = Part(kind: Option<string>, text: Option<string>)

  /**
   * The `content` field: a string, an array of parts, or any other JSON value
   * (absent, `null`, a number, a boolean, a plain object).
   */
  datatype Content = Text(s: string) | Parts(parts: seq<Part>) | NonText

  /** A turn; `role` is `None` when the field is absent or not a string. */
  datatype Message = Message(role: Option<string>, content: Content)

  const UserRole := "user"
  const AssistantRole := "assistant"
  const SystemRole := "system"

  predicate HasRole(m: Message, role: string) {
    m.role == Some(role)
  }

  /** JavaScript truthiness of an optional identifier: present and not the empty string. */
  predicate Truthy(id: Option<string>) {
    id.Some? && id.value != ""
  }

  /** `ms.find(m => m.role === role)`: the first turn with that role, if any. */
  function FindRole(ms: seq<Message>, role: string): (r: Option<Message>)
    ensures r.Some? ==> r.value in ms && HasRole(r.value, role)
    ensures r.None? <==> forall i :: 0 <= i < |ms| ==> !HasRole(ms[i], role)
  {
    if ms == [] then None
    else if HasRole(ms[0], role) then Some(ms[0])
    else FindRole(ms[1..], role)
  }

  /** `find` returns the earliest match: every turn before it has another role. */
  lemma {:induction false} FindRoleIsFirst(ms: seq<Message>, role: string)
    requires FindRole(ms, role).Some?
    ensures exists i :: 0 <= i < |ms| && ms[i] == FindRole(ms, role).value
                        && forall j :: 0 <= j < i ==> !HasRole(ms[j], role)
  {
    if HasRole(ms[0], role) {
      assert ms[0] == FindRole(ms, role).value;
    } else {
      FindRoleIsFirst(ms[1..], role);
      var i :| 0 <= i < |ms[1..]| && ms[1..][i] == FindRole(ms[1..], role).value
               && forall j :: 0 <= j < i ==> !HasRole(ms[1..][j], role);
      assert ms[i + 1] == ms[1..][i];
      assert forall j :: 1 <= j < i + 1 ==> ms[j] == ms[1..][j - 1];
    }
  }

  /** The search skips a prefix holding no turn of the role. */
  lemma {:induction false} FindRoleSkips(pre: seq<Message>, ms: seq<Message>, role: string)
    requires forall i :: 0 <= i < |pre| ==> !HasRole(pre[i], role)
    ensures FindRole(pre + ms, role) == FindRole(ms, role)
  {
    if pre != [] {
      assert (pre + ms)[0] == pre[0];
      assert (pre + ms)[1..] == pre[1..] + ms;
      FindRoleSkips(pre[1..], ms, role);
    } else {
      assert pre + ms == ms;
    }
  }
}
