/** JOIN with lists: channel names and keys joined by commas, on one line. */
module KeyLists {
  import opened Text
  import opened State
  import opened Commands
  import opened Invariant
  import opened Parsing
  import opened ReadBack
  import opened EventLoop
  import Modes

  function Commas(words: seq<string>): string {
    if words == [] then ""
    else if |words| == 1 then words[0]
    else words[0] + [','] + Commas(words[1..])
  }

  predicate NoneEmpty(words: seq<string>) { forall i :: 0 <= i < |words| ==> words[i] != "" }

  /** Comma-free texts joined by commas split into themselves if and only if none is empty: an empty one is
      dropped, and the ones after it move up. */
  lemma CommasSplit(words: seq<string>)
    requires forall i :: 0 <= i < |words| ==> Free(words[i], COMMA)
    ensures Tokens(Commas(words), COMMA) == words <==> NoneEmpty(words)
  {
    if NoneEmpty(words) { FullSplit(words); }
  }

  lemma {:induction false} FullSplit(words: seq<string>)
    requires forall i :: 0 <= i < |words| ==> Free(words[i], COMMA) && words[i] != ""
    ensures Tokens(Commas(words), COMMA) == words
  {
    hide Free;
    if words == [] {
      NothingSplit();
    } else if |words| == 1 {
      TokensSingle(words[0], COMMA);
    } else {
      FullSplit(words[1..]);
      TokensCons(words[0], ',', Commas(words[1..]), COMMA);
    }
  }

  lemma NothingSplit()
    ensures Tokens("", COMMA) == []
  {
  }

  /** The keys of some channels, in order. */
  function KeysOf(s: Core, names: seq<string>): (keys: seq<string>)
    requires forall i :: 0 <= i < |names| ==> names[i] in s.channels
    ensures |keys| == |names| && forall i :: 0 <= i < |names| ==> keys[i] == s.channels[names[i]].key
  {
    seq(|names|, i requires 0 <= i < |names| => s.channels[names[i]].key)
  }

  /** The names of reachable channels survive the comma split; their keys do if and only if each is set. */
  lemma ListsSplit(s: Core, names: seq<string>)
    requires Inv(s) && forall i :: 0 <= i < |names| ==> names[i] in s.channels
    ensures Tokens(Commas(names), COMMA) == names
    ensures Tokens(Commas(KeysOf(s, names)), COMMA) == KeysOf(s, names) <==> NoneEmpty(KeysOf(s, names))
  {
    hide Tokens, Commas, SessionsOk, NicksOk, PollOk;
    var keys := KeysOf(s, names);
    forall i | 0 <= i < |names| ensures Free(names[i], COMMA) && names[i] != "" && Free(keys[i], COMMA) {
      assert EntryOk(s, names[i], s.channels[names[i]]);
      NameFree(names[i]);
      KeyFree(keys[i]);
    }
    CommasSplit(names);
    CommasSplit(keys);
  }

  lemma NameFree(name: string)
    requires ValidChannelName(name)
    ensures Free(name, COMMA) && name != ""
  {
  }

  lemma KeyFree(key: string)
    requires Free(key, Modes.KEY_STOPS)
    ensures Free(key, COMMA)
  {
  }

  /** The line a client sends to join channels with their keys. */
  function JoinLine(names: seq<string>, keys: seq<string>): string {
    WordLine("", "JOIN", [Commas(names), Commas(keys)])
  }

  lemma JoinIsWord()
    ensures Sendable("", "JOIN")
  {
  }

  /** The line is read as the two lists it spells if and only if both can stand between spaces. */
  lemma JoinLineReadsBack(names: seq<string>, keys: seq<string>)
    ensures Parse(JoinLine(names, keys)) == Message("", "JOIN", [Commas(names), Commas(keys)])
      <==> Middle(Commas(names)) && Middle(Commas(keys))
  {
    hide Parse, WordLine, Commas;
    JoinIsWord();
    var args := [Commas(names), Commas(keys)];
    ReadsBackExactly("", "JOIN", args);
    assert args[0] == Commas(names) && args[1] == Commas(keys);
  }

  /** Main result: a registered client that sends the names and keys of reachable channels on one JOIN line
      has each channel tried with its own key and is refused none for its key, as long as every one of them
      has a key and the two lists can stand between spaces. */
  lemma KeysSurviveJoinLine(s: Core, fd: int, names: seq<string>)
    requires Inv(s) && Listening(s, fd) && s.clients[fd].Registered()
    requires forall i :: 0 <= i < |names| ==> names[i] in s.channels
    requires NoneEmpty(KeysOf(s, names)) && Middle(Commas(names)) && Middle(Commas(KeysOf(s, names)))
    ensures ProcessLine(s, fd, JoinLine(names, KeysOf(s, names))) == JoinList(s, fd, names, KeysOf(s, names))
    ensures forall i :: 0 <= i < |names| ==> Refusal(s.channels[names[i]], fd, KeysOf(s, names)[i]) != Some(475)
  {
    hide Inv, Parse, Commas, Tokens, JoinLine, JoinList;
    ListsSplit(s, names);
    JoinLineReadsBack(names, KeysOf(s, names));
    assert Commas(names) != "0" by { NamesAreNotZero(s, names); }
  }

  lemma NamesAreNotZero(s: Core, names: seq<string>)
    requires Inv(s) && Middle(Commas(names)) && forall i :: 0 <= i < |names| ==> names[i] in s.channels
    ensures Commas(names) != "0"
  {
    assert names != [];
    assert EntryOk(s, names[0], s.channels[names[0]]);
    assert Commas(names)[0] == names[0][0];
  }
}
