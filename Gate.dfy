/**
 * The chat side of the second factor: which messages count as a code, what
 * the code slot holds after the handler has seen a batch of messages, and the
 * bounded poll with which the login flow waits for the slot to fill. Also the
 * gate of the `/run` command.
 */
module Gate {
  import opened Wrappers
  import opened Text
  import opened Types

  /** The handler's format test on the stripped text: `isdigit()` and a length of 4 to 8. */
  predicate IsCode(code: string) {
    IsDigits(code) && 4 <= |code| <= 8
  }

  /** The code the message handler stores for `text`, or `None` when it rejects it. */
  function CodeIn(text: string): Option<string> {
    var code := Strip(text);
    if IsCode(code) then Some(code) else None
  }

  /** A verification code written out character by character: 4 to 8 characters, each an ASCII digit `0` to `9`. */
  predicate CodePattern(s: string) {
    4 <= |s| <= 8 && forall i :: 0 <= i < |s| ==> '0' <= s[i] <= '9'
  }

  /**
   * A message is accepted iff its stripped text matches `^[0-9]{4,8}$`; what is
   * stored is that stripped text, and a stored code passes the same test
   * again unchanged.
   */
  lemma CodeGate(text: string)
    ensures CodeIn(text).Some? <==> CodePattern(Strip(text))
    ensures CodeIn(text).Some? ==> CodeIn(text).value == Strip(text) && CodeIn(CodeIn(text).value) == CodeIn(text)
  {
    var t := Strip(text);
    StripCharsIdempotent(text, Whitespace);
    assert Strip(t) == t;
    assert CodeIn(text) == if IsCode(t) then Some(t) else None;
    assert CodeIn(t) == if IsCode(t) then Some(t) else None;
  }

  /** A code with a letter, one that is too short and one that is too long are rejected; surrounding blanks are ignored. */
  lemma RejectsLetter() ensures CodeIn("12a34") == None {
    StripsTo([], "12a34", []);
    assert !IsDigit("12a34"[2]);
  }

  lemma RejectsShort() ensures CodeIn("123") == None {
    StripsTo([], "123", []);
  }

  lemma RejectsLong() ensures CodeIn("123456789") == None {
    StripsTo([], "123456789", []);
  }

  lemma AcceptsPadded() ensures CodeIn(" 123456\n") == Some("123456") {
    StripsTo([' '], "123456", ['\n']);
    assert [' '] + "123456" + ['\n'] == " 123456\n";
  }

  /** Python truthiness of the `two_fa_code` slot. */
  predicate Present(code: Option<string>) {
    code.Some? && code.value != []
  }

  /** The handler would store this message's code: it comes from the allowed user and passes the test. */
  predicate Accepts(m: Message, allowed: int) {
    m.sender == allowed && CodeIn(m.text).Some?
  }

  predicate HasCode(batch: seq<Message>, allowed: int) {
    exists m :: m in batch && Accepts(m, allowed)
  }

  /**
   * The code slot after the handler has processed `batch` in order while the
   * monitor is waiting: the last accepted code, or the old slot if none.
   */
  function Deliver(code: Option<string>, batch: seq<Message>, allowed: int): Option<string> {
    if batch == [] then code
    else
      var m := batch[|batch| - 1];
      if Accepts(m, allowed) then CodeIn(m.text) else Deliver(code, batch[..|batch| - 1], allowed)
  }

  /** A stored code is never empty, so the poll loop sees it. */
  lemma AcceptedIsPresent(m: Message, allowed: int)
    requires Accepts(m, allowed)
    ensures Present(CodeIn(m.text))
  {
  }

  /** Once a batch holds a valid code from the allowed user, the slot is filled. */
  lemma {:induction false} DeliverFills(code: Option<string>, batch: seq<Message>, allowed: int)
    requires HasCode(batch, allowed)
    ensures Present(Deliver(code, batch, allowed))
  {
    var m := batch[|batch| - 1];
    if Accepts(m, allowed) {
      AcceptedIsPresent(m, allowed);
    } else {
      var rest := batch[..|batch| - 1];
      var w :| w in batch && Accepts(w, allowed);
      assert batch == rest + [m];
      assert w in rest;
      DeliverFills(code, rest, allowed);
    }
  }

  /**
   * The slot holds the code of the last message of the batch that the
   * handler accepts: no later message of the batch is accepted.
   */
  lemma {:induction false} DeliverLast(code: Option<string>, batch: seq<Message>, allowed: int)
    requires HasCode(batch, allowed)
    ensures exists i :: (0 <= i < |batch| && Accepts(batch[i], allowed) && Deliver(code, batch, allowed) == CodeIn(batch[i].text)
                         && forall j :: i < j < |batch| ==> !Accepts(batch[j], allowed))
  {
    var n := |batch|;
    var m := batch[n - 1];
    if Accepts(m, allowed) {
      assert Deliver(code, batch, allowed) == CodeIn(batch[n - 1].text);
    } else {
      var rest := batch[..n - 1];
      var w :| w in batch && Accepts(w, allowed);
      assert batch == rest + [m];
      assert w in rest;
      assert Deliver(code, batch, allowed) == Deliver(code, rest, allowed);
      DeliverLast(code, rest, allowed);
      var i :| 0 <= i < |rest| && Accepts(rest[i], allowed) && Deliver(code, rest, allowed) == CodeIn(rest[i].text)
        && forall j :: i < j < |rest| ==> !Accepts(rest[j], allowed);
      assert batch[i] == rest[i];
      forall j | i < j < n
        ensures !Accepts(batch[j], allowed)
      {
        if j < n - 1 {
          assert batch[j] == rest[j];
        }
      }
    }
  }

  /** A batch with no valid code from the allowed user leaves the slot as it was. */
  lemma {:induction false} DeliverQuiet(code: Option<string>, batch: seq<Message>, allowed: int)
    requires !HasCode(batch, allowed)
    ensures Deliver(code, batch, allowed) == code
  {
    if batch != [] {
      var rest := batch[..|batch| - 1];
      assert batch[|batch| - 1] in batch;
      assert forall w :: w in rest ==> w in batch;
      DeliverQuiet(code, rest, allowed);
    }
  }

  /** The slot is empty or holds a code that passed the handler's test. */
  predicate ValidSlot(code: Option<string>) {
    code.None? || IsCode(code.value)
  }

  /** The handler only ever stores codes that pass its test. */
  lemma {:induction false} DeliverKeepsValid(code: Option<string>, batch: seq<Message>, allowed: int)
    requires ValidSlot(code)
    ensures ValidSlot(Deliver(code, batch, allowed))
  {
    if batch != [] {
      DeliverKeepsValid(code, batch[..|batch| - 1], allowed);
    }
  }

  /** The poll loop's bound: 60 checks, 2 seconds apart. */
  const MaxPolls: nat := 60

  /** The slot as the loop last saw it, and how many 2-second sleeps it took. */
  datatype Polled = Polled(code: Option<string>, slept: nat)

  /** The messages the handler receives during sleep number `k`. */
  function Batch(inbox: seq<seq<Message>>, k: nat): seq<Message> {
    if k < |inbox| then inbox[k] else []
  }

  /**
   * The 2FA wait: check the slot; if it holds a code, stop; otherwise sleep
   * (the handler runs meanwhile) and check again, at most `MaxPolls` sleeps;
   * a last check follows the last sleep.
   */
  function Poll(code: Option<string>, inbox: seq<seq<Message>>, allowed: int, slept: nat): (r: Polled)
    requires slept <= MaxPolls
    ensures slept <= r.slept <= MaxPolls
    ensures Present(r.code) || r.slept == MaxPolls
    ensures Present(code) ==> r == Polled(code, slept)
    decreases MaxPolls - slept
  {
    if Present(code) || slept == MaxPolls then Polled(code, slept)
    else Poll(Deliver(code, Batch(inbox, slept), allowed), inbox, allowed, slept + 1)
  }

  /** A sleep during which no valid code arrives leaves the wait where it was. */
  lemma PollQuietSleep(code: Option<string>, inbox: seq<seq<Message>>, allowed: int, s: nat)
    requires s < MaxPolls && !Present(code)
    requires !HasCode(Batch(inbox, s), allowed)
    ensures Poll(code, inbox, allowed, s) == Poll(code, inbox, allowed, s + 1)
  {
    DeliverQuiet(code, Batch(inbox, s), allowed);
  }

  /** A sleep during which a valid code arrives ends the wait right after it. */
  lemma PollArrival(code: Option<string>, inbox: seq<seq<Message>>, allowed: int, s: nat)
    requires s < MaxPolls && !Present(code)
    requires HasCode(Batch(inbox, s), allowed)
    ensures Poll(code, inbox, allowed, s) == Polled(Deliver(code, Batch(inbox, s), allowed), s + 1)
    ensures Present(Deliver(code, Batch(inbox, s), allowed))
  {
    var next := Deliver(code, Batch(inbox, s), allowed);
    DeliverFills(code, Batch(inbox, s), allowed);
    assert Poll(code, inbox, allowed, s) == Poll(next, inbox, allowed, s + 1);
  }

  /**
   * The wait resumes right after the sleep during which the first valid code
   * arrives, holding that batch's code.
   */
  lemma {:induction false} PollResumes(code: Option<string>, inbox: seq<seq<Message>>, allowed: int, s: nat, j: nat)
    requires s <= j < MaxPolls && !Present(code)
    requires forall k :: s <= k < j ==> !HasCode(Batch(inbox, k), allowed)
    requires HasCode(Batch(inbox, j), allowed)
    ensures Poll(code, inbox, allowed, s) == Polled(Deliver(code, Batch(inbox, j), allowed), j + 1)
    ensures Present(Poll(code, inbox, allowed, s).code)
    decreases j - s
  {
    if s < j {
      PollQuietSleep(code, inbox, allowed, s);
      PollResumes(code, inbox, allowed, s + 1, j);
    } else {
      PollArrival(code, inbox, allowed, s);
    }
  }

  /** With no valid code from the allowed user, the wait runs all 60 sleeps and the slot stays as it was. */
  lemma {:induction false} PollTimesOut(code: Option<string>, inbox: seq<seq<Message>>, allowed: int, s: nat)
    requires s <= MaxPolls && !Present(code)
    requires forall k :: s <= k < MaxPolls ==> !HasCode(Batch(inbox, k), allowed)
    ensures Poll(code, inbox, allowed, s) == Polled(code, MaxPolls)
    decreases MaxPolls - s
  {
    if s < MaxPolls {
      PollQuietSleep(code, inbox, allowed, s);
      PollTimesOut(code, inbox, allowed, s + 1);
    }
  }

  /**
   * A code the wait ends with, starting from a slot without one, is the code
   * of a message from the allowed user that the handler accepted during one
   * of the sleeps.
   */
  lemma {:induction false} PollFromInbox(code: Option<string>, inbox: seq<seq<Message>>, allowed: int, s: nat)
    requires s <= MaxPolls && !Present(code)
    requires Present(Poll(code, inbox, allowed, s).code)
    ensures exists k, i :: (s <= k < MaxPolls && 0 <= i < |Batch(inbox, k)| && Accepts(Batch(inbox, k)[i], allowed)
                            && Poll(code, inbox, allowed, s).code == CodeIn(Batch(inbox, k)[i].text))
    decreases MaxPolls - s
  {
    var b := Batch(inbox, s);
    if HasCode(b, allowed) {
      PollArrival(code, inbox, allowed, s);
      DeliverLast(code, b, allowed);
      var i :| 0 <= i < |b| && Accepts(b[i], allowed) && Deliver(code, b, allowed) == CodeIn(b[i].text);
      assert Poll(code, inbox, allowed, s).code == CodeIn(Batch(inbox, s)[i].text);
    } else {
      PollQuietSleep(code, inbox, allowed, s);
      PollFromInbox(code, inbox, allowed, s + 1);
    }
  }

  /** Whatever the wait ends with is empty or a code that passed the handler's test. */
  lemma {:induction false} PollKeepsValid(code: Option<string>, inbox: seq<seq<Message>>, allowed: int, s: nat)
    requires s <= MaxPolls && ValidSlot(code)
    ensures ValidSlot(Poll(code, inbox, allowed, s).code)
    decreases MaxPolls - s
  {
    if !Present(code) && s < MaxPolls {
      DeliverKeepsValid(code, Batch(inbox, s), allowed);
      PollKeepsValid(Deliver(code, Batch(inbox, s), allowed), inbox, allowed, s + 1);
    }
  }

  /** The replies of the `/run` command. */
  datatype RunReply = Unauthorized | AlreadyRunning | Starting

  /** The `/run` gate: only the allowed user, and only while no monitor is active. */
  function RunCommand(sender: int, allowed: int, running: bool): (r: RunReply)
    ensures r == Starting <==> sender == allowed && !running
    ensures r == AlreadyRunning <==> sender == allowed && running
  {
    if sender != allowed then Unauthorized
    else if running then AlreadyRunning
    else Starting
  }
}
