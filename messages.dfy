/** The message store: a list of messages in which every read, update and
    removal first asks the policy engine for a decision. */
module MessageStore {
  import opened Control

  /** A message; its id is handed out by the message constructor. */
  datatype Message = Message(id: MessageId, text: string, author: string, date: string)

  /** Which branch an update or a removal took. */
  datatype WriteOutcome = Written | AccessDenied | NotFound

  /** The message with its text replaced (`update_text`). */
  function WithText(m: Message, text: string): Message {
    m.(text := text)
  }

  /** The message with its contents cleared (`clear`); it keeps its id. */
  function Cleared(m: Message): Message {
    m.(text := "")
  }

  /** The position of the first message with the given id, if there is one. */
  function FirstIndexOf(ms: seq<Message>, id: MessageId): (r: Option<nat>)
    ensures r.Some? ==> r.value < |ms| && ms[r.value].id == id
    ensures r.Some? ==> forall k :: 0 <= k < r.value ==> ms[k].id != id
    ensures r.None? <==> forall k :: 0 <= k < |ms| ==> ms[k].id != id
  {
    if ms == [] then None
    else if ms[0].id == id then Some(0)
    else
      match FirstIndexOf(ms[1..], id)
      case None => None
      case Some(i) => Some(i + 1)
  }

  class Messages {
    /** The stored messages, in insertion order. */
    var messages: seq<Message>
    /** The policy engine every operation consults. */
    const policy: PolicyContext

    /** An empty store over the given policy state. */
    constructor (policy: PolicyContext)
      ensures this.policy == policy && messages == []
    {
      this.policy := policy;
      messages := [];
    }

    /** The messages of `ms` the session user may read, in their order. */
    function Readable(ms: seq<Message>): (r: seq<Message>)
      reads policy
      ensures |r| <= |ms|
    {
      if ms == [] then []
      else
        var last := ms[|ms| - 1];
        Readable(ms[..|ms| - 1]) + (if policy.CanReadMessage(last.id, None) then [last] else [])
    }

    /** The listing holds exactly the messages the session user may read. */
    lemma {:induction false} ReadableMembers(ms: seq<Message>)
      ensures forall m :: m in Readable(ms) <==> m in ms && policy.CanReadMessage(m.id, None)
    {
      if ms != [] {
        var init, last := ms[..|ms| - 1], ms[|ms| - 1];
        ReadableMembers(init);
        assert ms == init + [last];
      }
    }

    /** Filtering a concatenation filters each part: the listing keeps the
        store's order. */
    lemma {:induction false} ReadableAppend(a: seq<Message>, b: seq<Message>)
      ensures Readable(a + b) == Readable(a) + Readable(b)
    {
      if b == [] {
        assert a + b == a;
      } else {
        var b' := b[..|b| - 1];
        assert (a + b)[..|a + b| - 1] == a + b';
        ReadableAppend(a, b');
      }
    }

    /** When the session user may read every message, the listing is the
        whole store. */
    lemma {:induction false} ReadableAll(ms: seq<Message>)
      requires forall k :: 0 <= k < |ms| ==> policy.CanReadMessage(ms[k].id, None)
      ensures Readable(ms) == ms
    {
      if ms != [] {
        var init := ms[..|ms| - 1];
        forall k | 0 <= k < |init| ensures policy.CanReadMessage(init[k].id, None) {
          assert init[k] == ms[k];
        }
        ReadableAll(init);
        assert ms == init + [ms[|ms| - 1]];
      }
    }

    /** `display`: lists exactly the messages the session user may read, in
        store order. */
    method Display() returns (shown: seq<Message>)
      ensures shown == Readable(messages)
    {
      shown := [];
      var i := 0;
      while i < |messages|
        invariant 0 <= i <= |messages|
        invariant shown == Readable(messages[..i])
      {
        var m := messages[i];
        assert messages[..i + 1] == messages[..i] + [m];
        if policy.CanReadMessage(m.id, None) {
          shown := shown + [m];
        }
        i := i + 1;
      }
      assert messages[..i] == messages;
    }

    /** `show`: true exactly when a message with the id exists and the session
        user may read it; a denied read looks the same as a missing message. */
    method Show(id: MessageId) returns (shown: bool)
      ensures shown <==>
        (exists k :: 0 <= k < |messages| && messages[k].id == id) && policy.CanReadMessage(id, None)
      ensures !policy.CanReadMessage(id, None) ==> !shown
    {
      var i := 0;
      while i < |messages|
        invariant 0 <= i <= |messages|
        invariant forall k :: 0 <= k < i ==> messages[k].id != id
      {
        if messages[i].id == id {
          if policy.CanReadMessage(id, None) {
            return true;
          }
          return false;
        }
        i := i + 1;
      }
      return false;
    }

    /** `exists`: true exactly when a message with the id is stored, whatever
        the policy says. */
    method Exists(id: MessageId) returns (found: bool)
      ensures found <==> exists k :: 0 <= k < |messages| && messages[k].id == id
    {
      var i := 0;
      while i < |messages|
        invariant 0 <= i <= |messages|
        invariant forall k :: 0 <= k < i ==> messages[k].id != id
      {
        if messages[i].id == id {
          return true;
        }
        i := i + 1;
      }
      return false;
    }

    /** `update`: replaces the text of the first message with the id, and only
        when the session user may write to it; otherwise nothing changes. */
    method Update(id: MessageId, text: string) returns (outcome: WriteOutcome)
      modifies this
      ensures FirstIndexOf(old(messages), id).None? ==>
        outcome == NotFound && messages == old(messages)
      ensures FirstIndexOf(old(messages), id).Some? && !policy.CanWriteMessage(id, None) ==>
        outcome == AccessDenied && messages == old(messages)
      ensures FirstIndexOf(old(messages), id).Some? && policy.CanWriteMessage(id, None) ==>
        var i := FirstIndexOf(old(messages), id).value;
        outcome == Written && messages == old(messages)[i := WithText(old(messages)[i], text)]
      ensures |messages| == |old(messages)|
      ensures forall k :: 0 <= k < |messages| ==> messages[k].id == old(messages)[k].id
    {
      var i := 0;
      while i < |messages|
        invariant 0 <= i <= |messages|
        invariant messages == old(messages)
        invariant forall k :: 0 <= k < i ==> messages[k].id != id
      {
        if messages[i].id == id {
          if policy.CanWriteMessage(id, None) {
            messages := messages[i := WithText(messages[i], text)];
            outcome := Written;
          } else {
            outcome := AccessDenied;
          }
          return;
        }
        i := i + 1;
      }
      outcome := NotFound;
    }

    /** `remove`: clears the first message with the id, and only when the
        session user may write to it; otherwise nothing changes. */
    method Remove(id: MessageId) returns (outcome: WriteOutcome)
      modifies this
      ensures FirstIndexOf(old(messages), id).None? ==>
        outcome == NotFound && messages == old(messages)
      ensures FirstIndexOf(old(messages), id).Some? && !policy.CanWriteMessage(id, None) ==>
        outcome == AccessDenied && messages == old(messages)
      ensures FirstIndexOf(old(messages), id).Some? && policy.CanWriteMessage(id, None) ==>
        var i := FirstIndexOf(old(messages), id).value;
        outcome == Written && messages == old(messages)[i := Cleared(old(messages)[i])]
      ensures |messages| == |old(messages)|
      ensures forall k :: 0 <= k < |messages| ==> messages[k].id == old(messages)[k].id
    {
      var i := 0;
      while i < |messages|
        invariant 0 <= i <= |messages|
        invariant messages == old(messages)
        invariant forall k :: 0 <= k < i ==> messages[k].id != id
      {
        if messages[i].id == id {
          if policy.CanWriteMessage(id, None) {
            messages := messages[i := Cleared(messages[i])];
            outcome := Written;
          } else {
            outcome := AccessDenied;
          }
          return;
        }
        i := i + 1;
      }
      outcome := NotFound;
    }

    /** `add`: registers the new message's classification (its label, else its
        author's clearance), then appends it; the earlier messages and the
        session user are unchanged. */
    method Add(text: string, author: string, date: string, textControl: Option<string>, id: MessageId)
      modifies this, policy
      ensures messages == old(messages) + [Message(id, text, author, date)]
      ensures policy.messageLevel == old(policy.messageLevel)[id := RegisteredLevel(textControl, Some(author))]
      ensures policy.currentUser == old(policy.currentUser)
    {
      policy.RegisterMessage(id, textControl, Some(author));
      messages := messages + [Message(id, text, author, date)];
    }
  }
}
