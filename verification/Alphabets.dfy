/** The character sets and the casemapping, spelled out. */
module Alphabets {
  import opened Text
  import opened Commands

  predicate Letter(c: char) { 'A' <= c <= 'Z' || 'a' <= c <= 'z' }

  const SPECIALS: set<char> := {'[', ']', '\\', '`', '_', '^', '{', '|', '}'}

  /** Up to nine characters, the first a letter or special, the others also digits and hyphens. */
  predicate GoodNickname(n: string) {
    1 <= |n| <= 9 && (Letter(n[0]) || n[0] in SPECIALS)
    && forall i :: 1 <= i < |n| ==> Letter(n[i]) || n[i] in SPECIALS || '0' <= n[i] <= '9' || n[i] == '-'
  }

  /** The range check is the alphabet. */
  lemma NicknamesSpelled(n: string)
    ensures ValidNickname(n) <==> GoodNickname(n)
  {
    hide NickStart, NickPart, Letter;
    if n != "" { NicknameCharacters(n[0]); }
    forall i | 1 <= i < |n|
      ensures NickPart(n[i]) <==> Letter(n[i]) || n[i] in SPECIALS || '0' <= n[i] <= '9' || n[i] == '-'
    {
      NicknameCharacters(n[i]);
    }
  }

  lemma NicknameCharacters(c: char)
    ensures NickStart(c) <==> Letter(c) || c in SPECIALS
    ensures NickPart(c) <==> Letter(c) || c in SPECIALS || '0' <= c <= '9' || c == '-'
  {
  }

  /** Characters the casemapping identifies: the two cases of a letter, and four pairs. */
  predicate SameCase(a: char, b: char) {
    a == b || Pair(a, b, '[', '{') || Pair(a, b, ']', '}') || Pair(a, b, '\\', '|') || Pair(a, b, '~', '^')
    || ('A' <= a <= 'Z' && b as int == a as int + 32) || ('A' <= b <= 'Z' && a as int == b as int + 32)
  }

  predicate Pair(a: char, b: char, p: char, q: char) { (a == p && b == q) || (a == q && b == p) }

  lemma CasemapIdentifies(a: char, b: char)
    ensures LowerChar(a) == LowerChar(b) <==> SameCase(a, b)
  {
  }

  /** Two names are one exactly when they agree up to that, position by position. */
  lemma CasemapExactly(m: string, n: string)
    ensures Lower(m) == Lower(n) <==> |m| == |n| && forall i :: 0 <= i < |m| ==> SameCase(m[i], n[i])
  {
    hide SameCase, LowerChar, Lower;
    if |m| == |n| {
      forall i | 0 <= i < |m| ensures Lower(m)[i] == Lower(n)[i] <==> SameCase(m[i], n[i]) {
        CasemapIdentifies(m[i], n[i]);
      }
      if forall i :: 0 <= i < |m| ==> SameCase(m[i], n[i]) {
        assert forall i :: 0 <= i < |m| ==> Lower(m)[i] == Lower(n)[i];
      }
    }
  }

  /** Command words: the letters of the alphabet fold, nothing else. */
  lemma UpperExactly(word: string)
    ensures forall i :: 0 <= i < |word| ==>
      Upper(word)[i] as int == if 'a' <= word[i] <= 'z' then word[i] as int - 32 else word[i] as int
  {
  }

  /** Up to 32 bytes without at sign, exclamation mark, space, NUL, CR and LF. */
  lemma UsernamesSpelled(u: string)
    ensures ValidUsername(u) <==>
      1 <= |u| <= 32 && '@' !in u && '!' !in u && ' ' !in u && '\0' !in u && '\r' !in u && '\n' !in u
  {
    if Free(u, USERNAME_STOPS) { assert forall c :: c in u ==> c !in USERNAME_STOPS; }
  }

  /** Up to 50 bytes, the first a number sign or ampersand, without space, comma and BEL. */
  lemma ChannelNamesSpelled(n: string)
    ensures ValidChannelName(n) <==>
      1 <= |n| <= 50 && (n[0] == '#' || n[0] == '&') && ' ' !in n && ',' !in n && 7 as char !in n
  {
    if Free(n, NAME_STOPS) { assert forall c :: c in n ==> c !in NAME_STOPS; }
  }
}
