/**
 * The browser's chat log (public/js/chat.js): the messages received for the
 * room in arrival order, the optional new-message callback, and the
 * 'send-message' emission, which drops text that `trim()` reduces to nothing.
 */
module Chat {
  import opened Wrappers
  import opened Protocol

  /** An opaque callback function, identified by the registration that supplied it. */
  type CallbackId = nat

  /** What this client emits on its socket. */
  datatype Emit = SendMessage(roomId: RoomId, message: string)

  /** One invocation of the new-message callback. */
  datatype Call = Call(callback: CallbackId, message: Message)

  /**
   * The characters `String.prototype.trim` removes (ECMAScript's WhiteSpace
   * and LineTerminator): TAB, LF, VT, FF, CR, SPACE, NBSP, ZWNBSP, LS, PS and
   * the space separators of category Zs.
   */
  predicate IsJsWhitespace(c: char) {
    c == '\t' || c == '\n' || c == '\U{000B}' || c == '\U{000C}' || c == '\r' || c == ' '
    || c == '\U{00A0}' || c == '\U{1680}' || ('\U{2000}' <= c <= '\U{200A}')
    || c == '\U{2028}' || c == '\U{2029}' || c == '\U{202F}' || c == '\U{205F}'
    || c == '\U{3000}' || c == '\U{FEFF}'
  }

  function TrimStart(s: string): string {
    if s != [] && IsJsWhitespace(s[0]) then TrimStart(s[1..]) else s
  }

  function TrimEnd(s: string): string {
    if s != [] && IsJsWhitespace(s[|s| - 1]) then TrimEnd(s[..|s| - 1]) else s
  }

  /** `s.trim()`. */
  function Trim(s: string): string {
    TrimEnd(TrimStart(s))
  }

  /** `n` copies of `x`. */
  function Repeat<T>(x: T, n: nat): (r: seq<T>)
    ensures |r| == n && forall i :: 0 <= i < n ==> r[i] == x
  {
    if n == 0 then [] else Repeat(x, n - 1) + [x]
  }

  class ChatManager {
    const roomId: RoomId
    var messages: seq<Message>
    var onNewMessage: Option<CallbackId>
    /** How many times `initialize` registered the 'new-message' listener. */
    var listeners: nat
    var calls: seq<Call>
    var outbox: seq<Emit>

    constructor (roomId: RoomId)
      ensures this.roomId == roomId && messages == [] && onNewMessage == None
      ensures listeners == 0 && calls == [] && outbox == []
    {
      this.roomId := roomId;
      messages := [];
      onNewMessage := None;
      listeners := 0;
      calls := [];
      outbox := [];
    }

    /** `initialize`: registers one more 'new-message' listener on the socket. */
    method Initialize()
      modifies this`listeners
      ensures listeners == old(listeners) + 1
    {
      listeners := listeners + 1;
    }

    /** The 'new-message' listener: append the message, then hand it to the callback if one is set. */
    method OnNewMessage(message: Message)
      modifies this`messages, this`calls
      ensures messages == old(messages) + [message]
      ensures calls == old(calls) + (if onNewMessage.Some? then [Call(onNewMessage.value, message)] else [])
    {
      messages := messages + [message];
      if onNewMessage.Some? {
        calls := calls + [Call(onNewMessage.value, message)];
      }
    }

    /** The socket delivering one 'new-message' event: every registered listener runs once, in turn. */
    method DeliverNewMessage(message: Message)
      modifies this`messages, this`calls
      ensures messages == old(messages) + Repeat(message, listeners)
      ensures calls == old(calls) + (if onNewMessage.Some? then Repeat(Call(onNewMessage.value, message), listeners) else [])
    {
      for i := 0 to listeners
        invariant messages == old(messages) + Repeat(message, i)
        invariant calls == old(calls) + (if onNewMessage.Some? then Repeat(Call(onNewMessage.value, message), i) else [])
      {
        OnNewMessage(message);
      }
    }

    /** `sendMessage`: blank text is dropped; otherwise the untrimmed text goes out with this room's id. */
    method Send(text: string)
      modifies this`outbox
      ensures Trim(text) == [] ==> outbox == old(outbox)
      ensures Trim(text) != [] ==> outbox == old(outbox) + [SendMessage(roomId, text)]
    {
      if Trim(text) == [] {
        return;
      }
      outbox := outbox + [SendMessage(roomId, text)];
    }

    /** `setOnNewMessage`: the new callback replaces any earlier one. */
    method SetOnNewMessage(callback: CallbackId)
      modifies this`onNewMessage
      ensures onNewMessage == Some(callback)
    {
      onNewMessage := Some(callback);
    }
  }

  // ---------------------------------------------------------------- properties

  predicate AllWhitespace(s: string) {
    forall i :: 0 <= i < |s| ==> IsJsWhitespace(s[i])
  }

  lemma {:induction false} TrimStartShape(s: string)
    ensures var t := TrimStart(s);
      && |t| <= |s| && t == s[|s| - |t|..]
      && AllWhitespace(s[..|s| - |t|])
      && (t == [] <==> AllWhitespace(s))
      && (t != [] ==> !IsJsWhitespace(t[0]))
  {
    if s != [] && IsJsWhitespace(s[0]) {
      TrimStartShape(s[1..]);
    }
  }

  lemma {:induction false} TrimEndShape(s: string)
    ensures var t := TrimEnd(s);
      && |t| <= |s| && t == s[..|t|]
      && AllWhitespace(s[|t|..])
      && (t == [] <==> AllWhitespace(s))
      && (t != [] ==> !IsJsWhitespace(t[|t| - 1]))
  {
    if s != [] && IsJsWhitespace(s[|s| - 1]) {
      TrimEndShape(s[..|s| - 1]);
    }
  }

  /**
   * `trim()` cuts a contiguous piece out of the text that neither starts nor
   * ends with white space, and it leaves nothing exactly when the text is all
   * white space (or empty): that is when `sendMessage` drops it.
   */
  lemma TrimShape(s: string)
    ensures var t := Trim(s);
      && (exists i, j :: 0 <= i <= j <= |s| && t == s[i..j] && AllWhitespace(s[..i]) && AllWhitespace(s[j..]))
      && (t == [] <==> AllWhitespace(s))
      && (t != [] ==> !IsJsWhitespace(t[0]) && !IsJsWhitespace(t[|t| - 1]))
  {
    var u := TrimStart(s);
    TrimStartShape(s);
    TrimEndShape(u);
    var t := TrimEnd(u);
    var i := |s| - |u|;
    assert t == s[i..i + |t|];
    if t != [] {
      assert t[0] == u[0];
    }
  }
}
