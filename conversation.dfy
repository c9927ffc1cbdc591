/**
 * The client of frontend/chatbox.js talking to the handler of
 * backend/routers/chat.py: what the server does with the requests the
 * client sends.
 */
module Conversation {
  import opened Wrappers
  import opened Text
  import ChatBox
  import ChatRouter

  /** The JSON body as the server's `ChatIn` reads it. */
  function Received(r: ChatBox.Request): ChatRouter.ChatIn {
    ChatRouter.ChatIn(r.sessionId, r.message, Some(r.page as int), Some(r.lastQuery))
  }

  /** No Python whitespace at either end: the server's `strip` leaves such a text as it is. */
  predicate PyTrimmed(s: string) {
    s != [] && !IsPySpace(s[0]) && !IsPySpace(s[|s| - 1])
  }

  /**
   * A request the client sends (its message is its last query) is
   * accepted when the server's `strip` keeps it, and then the server
   * searches that very query, seeded by it, at offset `page * 5`: the
   * client's paging and the server's agree.
   */
  lemma ServerFollowsClient(r: ChatBox.Request, seed: (string, string) -> nat)
    requires ChatBox.Sendable(r) && PyTrimmed(r.message)
    ensures ChatRouter.Plan(Received(r), seed).Success?
    ensures var c := ChatRouter.Plan(Received(r), seed).value;
      c.query == r.lastQuery && c.page == r.page && c.offset == r.page * ChatBox.PageSize
      && c.seed == seed(r.sessionId, r.lastQuery)
  {
    StripNoop(r.message);
  }

  /**
   * The client trims JavaScript whitespace and the server strips Python
   * whitespace, and U+001C is only the latter: the client sends it as a
   * new query and the server refuses it with status 400.
   */
  lemma SeparatorOnlyRefused(sessionId: string, seed: (string, string) -> nat)
    ensures var r := ChatBox.Request(sessionId, "\U{1C}", "\U{1C}", 0);
      ChatBox.Sendable(r) && ChatRouter.Plan(Received(r), seed).Failure?
  {
    var s := "\U{1C}";
    assert |s| == 1 && s[0] == '\U{1C}';
    assert !IsJsSpace(s[0]) && IsPySpace(s[0]);
    assert s[1..] == [];
    assert TrimStart(s, IsPySpace) == [];
    assert PyStrip(s) == [];
  }
}
