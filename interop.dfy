/**
 * Where the client's conventions and the server's meet: the conversation
 * key each side computes, and the nickname checks each side applies to the
 * same `register` frame.
 */
module Interop {
  import opened Wrappers
  import opened Text
  import Server
  import Client

  /** Every character lies below U+10000, where a UTF-16 code unit is the code point. */
  predicate IsBmp(s: string) {
    forall i :: 0 <= i < |s| ==> s[i] as int < 0x10000
  }

  lemma {:induction false} Utf16OfBmp(s: string)
    requires IsBmp(s)
    ensures Utf16(s) == CodePoints(s)
  {
    if s != [] {
      assert IsBmp(s[1..]) by {
        forall i | 0 <= i < |s[1..]| ensures s[1..][i] as int < 0x10000 {
          assert s[1..][i] == s[i + 1];
        }
      }
      Utf16OfBmp(s[1..]);
      assert CodePoints(s) == [s[0] as int] + CodePoints(s[1..]);
    }
  }

  /**
   * For names without characters above U+FFFF, the browser's `getChatKey`
   * and the server's `get_chat_key` give the same key.
   */
  lemma ChatKeysAgree(a: string, b: string)
    requires IsBmp(a) && IsBmp(b)
    ensures Client.JsChatKey(Some(a), Some(b)) == Server.ChatKey(a, b)
  {
    Utf16OfBmp(a);
    Utf16OfBmp(b);
  }

  /**
   * Above U+FFFF the two orders part: U+10000 sorts after U+FF61 by code
   * point and before it by UTF-16 code unit, so the two sides key the same
   * pair differently.
   */
  lemma ChatKeysDiffer()
    ensures Client.JsChatKey(Some("\U{10000}"), Some("｡")) == "\U{10000}_｡"
    ensures Server.ChatKey("\U{10000}", "｡") == "｡_\U{10000}"
  {
    assert Utf16("\U{10000}") == [0xD800, 0xDC00] by {
      assert Utf16("\U{10000}"[1..]) == [];
    }
    assert Utf16("｡") == [0xFF61] by {
      assert Utf16("｡"[1..]) == [];
    }
    assert CodePoints("\U{10000}") == [0x10000];
    assert CodePoints("｡") == [0xFF61];
  }

  /** Python's strip only shortens, so the server never finds a client-checked nickname too long. */
  lemma ClientNicknameFitsServer(input: string, userId: string, connected: map<string, nat>, ids: map<string, string>)
    requires Client.LoginRejection(JsTrim(input)) == None
    ensures Server.RegisterRejection(PyStrip(JsTrim(input)), userId, connected, ids) != Some(Server.ErrNicknameTooLong)
  {
    var n := JsTrim(input);
    assert JsLength(n) <= Client.MaxNicknameUnits;
    JsLengthCountsAstralTwice(n);
    var username := PyStrip(n);
    assert |username| <= |TrimStart(n, IsPyWhitespace)| <= |n|;
    NotTooLong(username, userId, connected, ids);
  }

  lemma NotTooLong(username: string, userId: string, connected: map<string, nat>, ids: map<string, string>)
    requires |username| <= Server.MaxNicknameLength
    ensures Server.RegisterRejection(username, userId, connected, ids) != Some(Server.ErrNicknameTooLong)
  {
  }

  /** A one-character nickname outside JavaScript's whitespace passes the client's checks. */
  lemma ClientSendsOneChar(n: string)
    requires |n| == 1 && !IsJsWhitespace(n[0])
    ensures Client.LoginRejection(JsTrim(n)) == None
  {
    StripUnchanged(n, IsJsWhitespace);
    JsLengthCountsAstralTwice(n);
  }

  /** U+001C, a file separator, is not JavaScript whitespace: the client sends it as a nickname. */
  lemma ClientSendsFileSeparator()
    ensures Client.LoginRejection(JsTrim("\U{1C}")) == None
  {
    ClientSendsOneChar("\U{1C}");
  }

  /** Python's strip does remove U+001C, so the server rejects that nickname as empty. */
  lemma ServerBlanksFileSeparator()
    ensures Server.RegisterRejection(PyStrip("\U{1C}"), "", map[], map[]) == Some(Server.ErrEmptyNickname)
  {
    var s := "\U{1C}";
    assert IsPyWhitespace(s[0]);
    assert TrimStart(s, IsPyWhitespace) == TrimStart(s[1..], IsPyWhitespace);
    assert s[1..] == [];
  }
}
