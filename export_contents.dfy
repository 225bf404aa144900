/**
 * `find_assistant_contents` of the chat-export converter
 * (helper_scripts/general_shell_Scripts/convert_qwen_json_to_raw_project_structure.py):
 * the walk over the loaded export that collects the `content` of every
 * item of every assistant message, session by session.
 */
module ExportContents {
  import opened Wrappers
  import opened PyJson
  import opened PyDict

  /** What one step of a walk appends, or the exception it raises. */
  type Step = Result<seq<Json>, PyError>

  /**
   * Run `f` over `xs` in order and concatenate what it appends; the first
   * exception ends the walk and is raised.
   */
  function Collect<T>(xs: seq<T>, f: T -> Step): Step
  {
    if xs == [] then Ok([])
    else
      match Collect(xs[..|xs| - 1], f)
      case Err(e) => Err(e)
      case Ok(acc) =>
        match f(xs[|xs| - 1])
        case Err(e) => Err(e)
        case Ok(more) => Ok(acc + more)
  }

  /** One more element: append its contribution, or raise its exception. */
  lemma CollectStep<T>(xs: seq<T>, i: nat, f: T -> Step)
    requires i < |xs|
    ensures Collect(xs[..i + 1], f) ==
              match Collect(xs[..i], f)
              case Err(e) => Err(e)
              case Ok(acc) => (match f(xs[i]) case Err(e) => Err(e) case Ok(more) => Ok(acc + more))
  {
    assert xs[..i + 1][..i] == xs[..i];
  }

  /** An exception raised part-way through ends the whole walk with it. */
  lemma {:induction false} CollectRaises<T>(xs: seq<T>, i: nat, f: T -> Step, e: PyError)
    requires i <= |xs| && Collect(xs[..i], f) == Err(e)
    ensures Collect(xs, f) == Err(e)
    decreases |xs| - i
  {
    if i < |xs| {
      CollectStep(xs, i, f);
      CollectRaises(xs, i + 1, f, e);
    } else {
      assert xs[..i] == xs;
    }
  }

  /** The walk over a concatenation is the walk over each part, in order. */
  lemma {:induction false} CollectAppend<T>(a: seq<T>, b: seq<T>, f: T -> Step)
    ensures Collect(a + b, f) ==
              match Collect(a, f)
              case Err(e) => Err(e)
              case Ok(x) => (match Collect(b, f) case Err(e) => Err(e) case Ok(y) => Ok(x + y))
  {
    if b != [] {
      var ab := a + b;
      var init := b[..|b| - 1];
      assert ab[..|ab| - 1] == a + init;
      assert ab[|ab| - 1] == b[|b| - 1];
      CollectAppend(a, init, f);
      var x := Collect(a, f);
      var y := Collect(init, f);
      var more := f(b[|b| - 1]);
      if x.Ok? && y.Ok? && more.Ok? {
        assert x.value + y.value + more.value == x.value + (y.value + more.value);
      }
    } else {
      assert a + b == a;
      if Collect(a, f).Ok? {
        assert Collect(a, f).value + [] == Collect(a, f).value;
      }
    }
  }

  /** A step that never raises `KeyError` makes a walk that never raises it. */
  lemma {:induction false} CollectNoKeyError<T>(xs: seq<T>, f: T -> Step)
    requires forall x :: f(x) != Err(KeyError)
    ensures Collect(xs, f) != Err(KeyError)
  {
    if xs != [] {
      CollectNoKeyError(xs[..|xs| - 1], f);
    }
  }

  /** `if 'content' in content_item: contents.append(content_item['content'])`. */
  function ItemContent(item: Json): Step
  {
    match In("content", item)
    case Err(e) => Err(e)
    case Ok(false) => Ok([])
    case Ok(true) =>
      match Subscript(item, "content")
      case Err(e) => Err(e)
      case Ok(c) => Ok([c])
  }

  /**
   * One message: an assistant message with a `content_list` contributes the
   * contents of its items; `msg.get` raises `AttributeError` on a message
   * that is not a dict.
   */
  function MessageContent(msg: Json): Step
  {
    match Get(msg, "role")
    case Err(e) => Err(e)
    case Ok(role) =>
      if role != Some(JStr("assistant")) then Ok([])
      else
        match In("content_list", msg)
        case Err(e) => Err(e)
        case Ok(false) => Ok([])
        case Ok(true) =>
          match Subscript(msg, "content_list")
          case Err(e) => Err(e)
          case Ok(list) =>
            match Iterate(list)
            case Err(e) => Err(e)
            case Ok(items) => Collect(items, ItemContent)
  }

  /** The message is a dict whose role is 'assistant' and which has a `content_list` key. */
  predicate IsAssistantWithList(msg: Json)
  {
    msg.JObj? && Lookup(msg.entries, "role") == Some(JStr("assistant")) && "content_list" in Keys(msg.entries)
  }

  /**
   * Every case of one message: a message that is not a dict raises
   * `AttributeError`; a dict that is not an assistant message with a
   * `content_list` contributes nothing; otherwise a list of items contributes
   * what the item fold gives, and a `content_list` that cannot be iterated
   * (a number, a boolean or `None`) raises `TypeError`. Only an assistant message with a `content_list`
   * contributes any content.
   */
  lemma MessageContentCases(msg: Json)
    ensures !msg.JObj? ==> MessageContent(msg) == Err(AttributeError)
    ensures msg.JObj? && !IsAssistantWithList(msg) ==> MessageContent(msg) == Ok([])
    ensures IsAssistantWithList(msg) && Lookup(msg.entries, "content_list").value.JArr? ==>
              MessageContent(msg) == Collect(Lookup(msg.entries, "content_list").value.items, ItemContent)
    ensures IsAssistantWithList(msg) && Iterate(Lookup(msg.entries, "content_list").value).Err? ==>
              MessageContent(msg) == Err(TypeError)
    ensures MessageContent(msg).Ok? && MessageContent(msg).value != [] ==> IsAssistantWithList(msg)
  {
  }

  /** `session['chat']['history']['messages']`. */
  function MessagesOf(session: Json): Result<Json, PyError>
  {
    match Subscript(session, "chat")
    case Err(e) => Err(e)
    case Ok(chat) =>
      match Subscript(chat, "history")
      case Err(e) => Err(e)
      case Ok(history) => Subscript(history, "messages")
  }

  /**
   * One session, inside its `try`: a `KeyError` on the way to the messages,
   * or messages that are not a dict, skip the session; any other exception
   * escapes.
   */
  function SessionContent(session: Json): Step
  {
    match MessagesOf(session)
    case Err(KeyError) => Ok([])
    case Err(e) => Err(e)
    case Ok(messages) =>
      if messages.JObj? then Collect(Values(messages.entries), MessageContent) else Ok([])
  }

  /** `find_assistant_contents(data)`: a root that is not a list raises `TypeError`. */
  function FindAssistantContents(data: Json): (r: Step)
    ensures !data.JArr? ==> r == Err(TypeError)
    ensures r != Err(KeyError)
  {
    if !data.JArr? then Err(TypeError)
    else
      NoKeyErrorEscapes();
      CollectNoKeyError(data.items, SessionContent);
      Collect(data.items, SessionContent)
  }

  /** The `except KeyError` around each session catches every `KeyError` the walk can raise. */
  lemma NoKeyErrorEscapes()
    ensures forall s :: SessionContent(s) != Err(KeyError)
  {
    forall item
      ensures ItemContent(item) != Err(KeyError)
    {
      if In("content", item) == Ok(true) {
        InGuardsSubscript("content", item);
      }
    }
    forall msg
      ensures MessageContent(msg) != Err(KeyError)
    {
      if Get(msg, "role").Ok? && In("content_list", msg) == Ok(true) {
        InGuardsSubscript("content_list", msg);
        var list := Subscript(msg, "content_list");
        if list.Ok? && Iterate(list.value).Ok? {
          CollectNoKeyError(Iterate(list.value).value, ItemContent);
        }
      }
    }
    forall s
      ensures SessionContent(s) != Err(KeyError)
    {
      var m := MessagesOf(s);
      if m.Ok? && m.value.JObj? {
        CollectNoKeyError(Values(m.value.entries), MessageContent);
      }
    }
  }

  /**
   * Sessions contribute in order: the contents of a list of sessions are
   * the contents of its first part followed by those of the rest, and an
   * exception in the first part is raised before the rest is looked at.
   */
  lemma SessionOrder(a: seq<Json>, b: seq<Json>)
    ensures FindAssistantContents(JArr(a + b)) ==
              match FindAssistantContents(JArr(a))
              case Err(e) => Err(e)
              case Ok(x) => (match FindAssistantContents(JArr(b)) case Err(e) => Err(e) case Ok(y) => Ok(x + y))
  {
    CollectAppend(a, b, SessionContent);
  }

  /**
   * A session without `chat/history/messages`, or whose messages are not a
   * dict, adds nothing and raises nothing.
   */
  lemma SkippedSession(sessions: seq<Json>, s: Json)
    requires MessagesOf(s) == Err(KeyError) || (MessagesOf(s).Ok? && !MessagesOf(s).value.JObj?)
    ensures FindAssistantContents(JArr(sessions + [s])) == FindAssistantContents(JArr(sessions))
  {
    assert SessionContent(s) == Ok([]);
    assert [s][..0] == [];
    assert [s][|[s]| - 1] == s;
    assert Collect([s], SessionContent) == Ok([] + []);
    CollectAppend(sessions, [s], SessionContent);
    var before := Collect(sessions, SessionContent);
    if before.Ok? {
      assert before.value + [] == before.value;
    }
  }

  /** The innermost loop: the items of one assistant message's `content_list`. */
  method CollectItems(items: seq<Json>) returns (r: Step)
    ensures r == Collect(items, ItemContent)
  {
    var contents: seq<Json> := [];
    var k := 0;
    while k < |items|
      invariant k <= |items|
      invariant Collect(items[..k], ItemContent) == Ok(contents)
    {
      CollectStep(items, k, ItemContent);
      var item := items[k];
      var hasContent := In("content", item);
      if hasContent.Err? {
        CollectRaises(items, k + 1, ItemContent, hasContent.error);
        return Err(hasContent.error);
      }
      if hasContent.value {
        var c := Subscript(item, "content");
        if c.Err? {
          CollectRaises(items, k + 1, ItemContent, c.error);
          return Err(c.error);
        }
        contents := contents + [c.value];
      } else {
        assert contents + [] == contents;
      }
      k := k + 1;
    }
    assert items[..k] == items;
    return Ok(contents);
  }

  /** The body of the loop over messages: what one message appends. */
  method CollectMessage(msg: Json) returns (r: Step)
    ensures r == MessageContent(msg)
  {
    var role := Get(msg, "role");
    if role.Err? {
      return Err(role.error);
    }
    if role.value != Some(JStr("assistant")) {
      return Ok([]);
    }
    // `msg` has `get`, so it is a dict and the membership test cannot raise.
    var hasList := In("content_list", msg);
    match hasList
    case Ok(false) => return Ok([]);
    case Ok(true) =>
    // The key is present, so the subscript finds it.
    match Subscript(msg, "content_list")
    case Ok(list) =>
    var items := Iterate(list);
    if items.Err? {
      return Err(items.error);
    }
    r := CollectItems(items.value);
  }

  /** The loop over the values of one session's messages dict. */
  method CollectMessages(messages: seq<Json>) returns (r: Step)
    ensures r == Collect(messages, MessageContent)
  {
    var contents: seq<Json> := [];
    var j := 0;
    while j < |messages|
      invariant j <= |messages|
      invariant Collect(messages[..j], MessageContent) == Ok(contents)
    {
      CollectStep(messages, j, MessageContent);
      var more := CollectMessage(messages[j]);
      if more.Err? {
        CollectRaises(messages, j + 1, MessageContent, more.error);
        return Err(more.error);
      }
      contents := contents + more.value;
      j := j + 1;
    }
    assert messages[..j] == messages;
    return Ok(contents);
  }

  /** `find_assistant_contents`: the loop over sessions, each inside its `try`. */
  method CollectAssistantContents(data: Json) returns (r: Step)
    ensures r == FindAssistantContents(data)
  {
    if !data.JArr? {
      return Err(TypeError);
    }
    var sessions := data.items;
    var contents: seq<Json> := [];
    var i := 0;
    while i < |sessions|
      invariant i <= |sessions|
      invariant Collect(sessions[..i], SessionContent) == Ok(contents)
    {
      CollectStep(sessions, i, SessionContent);
      var m := MessagesOf(sessions[i]);
      if m.Err? && m.error != KeyError {
        CollectRaises(sessions, i + 1, SessionContent, m.error);
        return Err(m.error);
      }
      if m.Ok? && m.value.JObj? {
        var more := CollectMessages(Values(m.value.entries));
        if more.Err? {
          CollectRaises(sessions, i + 1, SessionContent, more.error);
          return Err(more.error);
        }
        contents := contents + more.value;
      } else {
        assert contents + [] == contents;
      }
      i := i + 1;
    }
    assert sessions[..i] == sessions;
    return Ok(contents);
  }
}
