/** The body-size middleware: it reads a bounded body, then replays it to the application. */
module BodyLimits {
  import opened Results
  import opened Numerals

  /** An ASGI message: a chunk of the request body, or anything else (a disconnect). */
  datatype Message = Chunk(body: seq<int>, more: bool) | Other

  function Size(m: Message): nat {
    if m.Chunk? then |m.body| else 0
  }

  predicate Ends(m: Message) {
    m.Other? || !m.more
  }

  /** The bytes in the first n messages. */
  function Total(messages: seq<Message>, n: nat): nat
    requires n <= |messages|
  {
    if n == 0 then 0 else Total(messages, n - 1) + Size(messages[n - 1])
  }

  /** What the client sends, in order; None while it sends nothing more. */
  class Channel {
    const messages: seq<Message>
    var position: nat

    ghost predicate Valid()
      reads this
    {
      position <= |messages|
    }

    constructor (messages: seq<Message>)
      ensures Valid() && this.messages == messages && position == 0
    {
      this.messages := messages;
      position := 0;
    }

    method Receive() returns (m: Option<Message>)
      requires Valid()
      modifies this
      ensures Valid()
      ensures if old(position) < |messages| then m == Some(messages[old(position)]) && position == old(position) + 1
              else m == None && position == old(position)
    {
      if position < |messages| {
        m := Some(messages[position]);
        position := position + 1;
      } else {
        m := None;
      }
    }
  }

  /** The application's `receive`: the buffered messages first, then the client's. */
  class Replay {
    var buffered: seq<Message>
    const channel: Channel
    ghost var delivered: nat

    ghost predicate Valid()
      reads this, channel
    {
      channel.Valid() && |buffered| <= channel.position && delivered == channel.position - |buffered|
      && buffered == channel.messages[delivered..channel.position]
    }

    constructor (buffered: seq<Message>, channel: Channel)
      requires channel.Valid() && buffered == channel.messages[..channel.position]
      ensures Valid() && delivered == 0 && this.channel == channel
    {
      this.buffered := buffered;
      this.channel := channel;
      this.delivered := 0;
    }

    /** The k-th call returns the k-th message the client ever sent. */
    method Receive() returns (m: Option<Message>)
      requires Valid()
      modifies this, channel
      ensures Valid()
      ensures if old(delivered) < |channel.messages|
              then m == Some(channel.messages[old(delivered)]) && delivered == old(delivered) + 1
              else m == None && delivered == old(delivered)
    {
      if buffered != [] {
        m := Some(buffered[0]);
        buffered := buffered[1..];
        delivered := delivered + 1;
      } else {
        m := channel.Receive();
        delivered := channel.position;
      }
    }
  }

  // ---------- the declared length ----------

  /** `dict(headers).get(b"content-length")`: the last header of the name. */
  function Declared(headers: seq<(string, string)>): Option<string> {
    if headers == [] then None
    else
      var last := headers[|headers| - 1];
      if last.0 == "content-length" then Some(last.1) else Declared(headers[..|headers| - 1])
  }

  /** The declared length is a number over the limit. */
  predicate DeclaresTooMuch(headers: seq<(string, string)>, limit: int) {
    match Declared(headers)
    case None => false
    case Some(s) => s != "" && |LeadingDigits(s)| == |s| && Value(LeadingDigits(s)) > limit
  }

  /** Header i is the last one of the name. */
  predicate LastDeclared(headers: seq<(string, string)>, i: nat) {
    && i < |headers| && headers[i].0 == "content-length"
    && forall j :: i < j < |headers| ==> headers[j].0 != "content-length"
  }

  /** The last header of the name counts; there is no declared length exactly when none has the name. */
  lemma {:induction false} DeclaredExactly(headers: seq<(string, string)>)
    ensures Declared(headers).None? <==> forall i :: 0 <= i < |headers| ==> headers[i].0 != "content-length"
    ensures forall i: nat :: LastDeclared(headers, i) ==> Declared(headers) == Some(headers[i].1)
  {
    if headers != [] {
      var n := |headers| - 1;
      var init := headers[..n];
      DeclaredExactly(init);
      assert forall j :: 0 <= j < n ==> init[j] == headers[j];
      forall i: nat | LastDeclared(headers, i) ensures Declared(headers) == Some(headers[i].1) {
        assert headers[n].0 == "content-length" ==> i == n;
        if i < n {
          assert LastDeclared(init, i);
        }
      }
    }
  }

  /** A declared length is refused exactly when it is a numeral, leading zeros or not, of a number over the limit. */
  lemma DeclaresTooMuchExactly(headers: seq<(string, string)>, limit: int)
    ensures DeclaresTooMuch(headers, limit) <==>
      exists ds: seq<Digit> :: ds != [] && Declared(headers) == Some(Text(ds)) && Value(ds) > limit
  {
    hide Declared, Value, Text, LeadingDigits;
    if Declared(headers).Some? {
      var s := Declared(headers).value;
      forall ds: seq<Digit> | s == Text(ds) ensures LeadingDigits(s) == ds && |ds| == |s| {
        LeadingDigitsOfText(ds, "");
        assert Text(ds) + "" == s;
      }
      if DeclaresTooMuch(headers, limit) {
        AllDigits(s);
      }
    }
  }

  /** A text of digits alone is the text of those digits. */
  lemma {:induction false} AllDigits(s: string)
    requires |LeadingDigits(s)| == |s|
    ensures s == Text(LeadingDigits(s))
    decreases |s|
  {
    if s != "" {
      AllDigits(s[1..]);
      assert LeadingDigits(s)[1..] == LeadingDigits(s[1..]);
      assert s == [s[0]] + s[1..];
    }
  }

  // ---------- the middleware ----------

  datatype Outcome =
    | PassedOn                      // not an HTTP request: the application gets `receive` itself
    | TooLarge(read: nat)           // answered 413 after reading so many messages; the application is not called
    | Waiting                       // the client has not finished its body
    | Called(replay: Replay)        // the application runs on the replayed messages

  /** The first n messages were read on: no end among them, and every running total within the limit. */
  ghost predicate ReadsOn(messages: seq<Message>, limit: int, n: nat)
    requires n <= |messages|
  {
    forall k :: 0 <= k < n ==> !Ends(messages[k]) && Total(messages, k + 1) <= limit
  }

  /** Message n is the first to take the running total over the limit. */
  ghost predicate FirstOver(messages: seq<Message>, limit: int, n: nat)
    requires n < |messages|
  {
    ReadsOn(messages, limit, n) && messages[n].Chunk? && Total(messages, n + 1) > limit
  }

  /** Message n ends the body within the limit. */
  ghost predicate FirstEnd(messages: seq<Message>, limit: int, n: nat)
    requires n < |messages|
  {
    ReadsOn(messages, limit, n) && Ends(messages[n]) && (messages[n].Chunk? ==> Total(messages, n + 1) <= limit)
  }

  method Handle(isHttp: bool, headers: seq<(string, string)>, limit: int, channel: Channel) returns (r: Outcome)
    requires channel.Valid() && channel.position == 0
    modifies channel
    ensures channel.Valid()
    ensures !isHttp ==> r == PassedOn && channel.position == 0
    ensures isHttp && DeclaresTooMuch(headers, limit) ==> r == TooLarge(0) && channel.position == 0
    ensures isHttp && !DeclaresTooMuch(headers, limit) ==>
      match r
      case PassedOn => false
      case TooLarge(n) => 1 <= n <= |channel.messages| && channel.position == n
        && FirstOver(channel.messages, limit, n - 1)
      case Waiting => channel.position == |channel.messages| && ReadsOn(channel.messages, limit, |channel.messages|)
      case Called(replay) =>
        && fresh(replay) && replay.Valid() && replay.channel == channel && replay.delivered == 0
        && channel.position > 0 && FirstEnd(channel.messages, limit, channel.position - 1)
  {
    if !isHttp {
      return PassedOn;
    }
    if DeclaresTooMuch(headers, limit) {
      return TooLarge(0);
    }
    var buffered := [];
    var received := 0;
    while true
      invariant channel.Valid()
      invariant buffered == channel.messages[..channel.position]
      invariant received == Total(channel.messages, channel.position)
      invariant ReadsOn(channel.messages, limit, channel.position)
      decreases |channel.messages| - channel.position
    {
      var next := channel.Receive();
      if next.None? {
        return Waiting;
      }
      var message := next.value;
      buffered := buffered + [message];
      if message.Other? {
        break;
      }
      received := received + |message.body|;
      if received > limit {
        return TooLarge(channel.position);
      }
      if !message.more {
        break;
      }
    }
    var replay := new Replay(buffered, channel);
    return Called(replay);
  }

  /** The three outcomes exclude each other: a stream has at most one first end or first excess. */
  lemma OutcomeIsUnique(messages: seq<Message>, limit: int, m: nat, n: nat)
    requires m < |messages| && n < |messages|
    requires FirstOver(messages, limit, m) || FirstEnd(messages, limit, m)
    requires FirstOver(messages, limit, n) || FirstEnd(messages, limit, n)
    ensures m == n && (FirstOver(messages, limit, m) <==> !FirstEnd(messages, limit, n))
  {
  }

  /**
   Transparency: a body whose running totals stay within the limit reaches the application, and one
   that exceeds it does not, whatever the chunking: the outcome is decided by the totals alone.
   */
  lemma {:induction false} FitsExactly(messages: seq<Message>, limit: int, n: nat)
    requires n < |messages| && Ends(messages[n]) && forall k :: 0 <= k < n ==> !Ends(messages[k])
    requires limit >= 0
    ensures FirstEnd(messages, limit, n) <==> Total(messages, n + 1) <= limit
  {
    TotalsGrow(messages, n + 1);
    assert messages[n].Other? ==> Total(messages, n + 1) == Total(messages, n);
    if ReadsOn(messages, limit, n) && n > 0 {
      assert Total(messages, n - 1 + 1) <= limit;
    }
  }

  lemma {:induction false} TotalsGrow(messages: seq<Message>, n: nat)
    requires n <= |messages|
    ensures forall k :: 0 <= k <= n ==> Total(messages, k) <= Total(messages, n)
  {
    if n > 0 {
      TotalsGrow(messages, n - 1);
    }
  }
}
