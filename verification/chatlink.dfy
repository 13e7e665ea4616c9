/**
 * The chat-link resolver: the `t.me/c` internal id of a chat and the base
 * URL of a chat, public (`t.me/<username>`) when the chat has a username.
 */
module ChatLink {
  import opened Wrappers
  import opened PyStr

  /** The chat a message belongs to; `username` is absent for private groups. */
  datatype Chat = Chat(id: int, username: Option<string>)

  /** Supergroup and channel ids are written with this prefix. */
  const SupergroupPrefix: string := "-100"

  /**
   * `str(chat_id)` without the `-100` prefix when it has one, otherwise
   * without its leading minus signs.
   */
  function InternalChatId(chatId: int): (r: string)
    ensures AllDigits(r)
    ensures r == [] || r[0] != '-'
    ensures StartsWith(IntToString(chatId), SupergroupPrefix) ==>
              IntToString(chatId) == SupergroupPrefix + r
    ensures !StartsWith(IntToString(chatId), SupergroupPrefix) ==>
              r == NatToString(if chatId < 0 then -chatId else chatId)
    ensures !StartsWith(IntToString(chatId), SupergroupPrefix) ==>
              ParseDigits(r) == Some(if chatId < 0 then -chatId else chatId)
  {
    var s := IntToString(chatId);
    if StartsWith(s, SupergroupPrefix) then
      assert s == s[..4] + s[4..];
      assert s[4..] == s[1..][3..];
      s[4..]
    else
      var r := LStripChar(s, '-');
      assert chatId < 0 ==> r == s[1..] by {
        if chatId < 0 { assert s[1] != '-'; }
      }
      assert chatId >= 0 ==> r == s;
      DigitsValueOfNatToString(if chatId < 0 then -chatId else chatId);
      r
  }

  /** The decimal digits of the docstring's example id, one digit at a time. */
  lemma DocstringIdDigits()
    ensures NatToString(1003056610802) == "1003056610802"
  {
    assert NatToString(1) == "1";
    assert NatToString(10) == "10";
    assert NatToString(100) == "100";
    assert NatToString(1003) == "1003";
    assert NatToString(10030) == "10030";
    assert NatToString(100305) == "100305";
    assert NatToString(1003056) == "1003056";
    assert NatToString(10030566) == "10030566";
    assert NatToString(100305661) == "100305661";
    assert NatToString(1003056610) == "1003056610";
    assert NatToString(10030566108) == "10030566108";
    assert NatToString(100305661080) == "100305661080";
    assert NatToString(1003056610802) == "1003056610802";
  }

  lemma DocstringIdText()
    ensures IntToString(-1003056610802) == SupergroupPrefix + "3056610802"
  {
    DocstringIdDigits();
    assert "-" + "1003056610802" == SupergroupPrefix + "3056610802";
  }

  /**
   * The docstring's own example: the code gives `3056610802` for
   * `-1003056610802`, not the `3239080709` the docstring names.
   */
  lemma InternalChatIdDocstringExample()
    ensures InternalChatId(-1003056610802) == "3056610802"
  {
    DocstringIdText();
    InternalChatIdOfPrefixed(-1003056610802, "3056610802");
  }

  /** An id written as `-100` followed by `rest` has `rest` as its internal id. */
  lemma InternalChatIdOfPrefixed(chatId: int, rest: string)
    requires IntToString(chatId) == SupergroupPrefix + rest
    ensures InternalChatId(chatId) == rest
  {
    assert StartsWith(IntToString(chatId), SupergroupPrefix);
  }

  /** A plain negative id loses only its sign; a positive id is unchanged. */
  lemma InternalChatIdSignOnly()
    ensures InternalChatId(-42) == "42"
    ensures InternalChatId(42) == "42"
  {
    assert NatToString(4) == "4";
    assert NatToString(42) == "42";
    assert IntToString(-42) == "-42";
  }

  /** `-100` itself is all prefix: its internal id is empty. */
  lemma InternalChatIdOfBarePrefix()
    ensures InternalChatId(-100) == ""
  {
    assert NatToString(1) == "1";
    assert NatToString(10) == "10";
    assert NatToString(100) == "100";
    assert IntToString(-100) == "-100";
  }

  /** A username is used only when it is present and non-empty (Python truthiness). */
  predicate HasPublicUsername(chat: Chat) {
    chat.username.Some? && chat.username.value != ""
  }

  const PublicLinkPrefix: string := "https://t.me/"
  const InternalLinkPrefix: string := "https://t.me/c/"

  /** The base URL for links into a chat. */
  function ChatLinkBase(chat: Chat): (r: string)
    ensures HasPublicUsername(chat) ==> r == PublicLinkPrefix + chat.username.value
    ensures !HasPublicUsername(chat) ==> r == InternalLinkPrefix + InternalChatId(chat.id)
    ensures !HasPublicUsername(chat) ==>
              StartsWith(r, InternalLinkPrefix) && AllDigits(r[|InternalLinkPrefix|..])
  {
    if HasPublicUsername(chat) then PublicLinkPrefix + chat.username.value
    else
      var r := InternalLinkPrefix + InternalChatId(chat.id);
      assert r[..|InternalLinkPrefix|] == InternalLinkPrefix;
      assert r[|InternalLinkPrefix|..] == InternalChatId(chat.id);
      r
  }

  /** With a username, the numeric id plays no part in the link. */
  lemma PublicLinkIgnoresId(chat: Chat, otherId: int)
    requires HasPublicUsername(chat)
    ensures ChatLinkBase(Chat(otherId, chat.username)) == ChatLinkBase(chat)
  {
  }
}
