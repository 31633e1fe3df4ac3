/** The handful of Python string operations the services depend on. */
module Text {

  /** The first position of `c` in `s`, or the length of `s` when it does not occur. */
  function Find(s: string, c: char): (i: nat)
    ensures i <= |s|
    ensures forall k :: 0 <= k < i ==> s[k] != c
    ensures i < |s| ==> s[i] == c
  {
    if s == "" || s[0] == c then 0 else 1 + Find(s[1..], c)
  }

  /** `email.split("@")[1] if "@" in email else ""`: the text between the first and the second at-sign. */
  function DomainOf(email: string): (domain: string)
    ensures '@' !in email ==> domain == ""
  {
    var at := Find(email, '@');
    if at == |email| then "" else
      var rest := email[at + 1..];
      rest[..Find(rest, '@')]
  }

  /** The domain of an address stands between its first at-sign and the next one or the end. */
  lemma DomainIsBetweenAts(email: string) returns (at: nat, end: nat)
    requires '@' in email
    ensures at < end <= |email| && DomainOf(email) == email[at + 1..end]
    ensures forall i :: 0 <= i < end ==> (email[i] == '@' <==> i == at)
    ensures end < |email| ==> email[end] == '@'
  {
    at := Find(email, '@');
    var rest := email[at + 1..];
    end := at + 1 + Find(rest, '@');
    forall i | at < i < |email|
      ensures email[i] == rest[i - at - 1]
    {
    }
  }

  // ---- normalisation -------------------------------------------------------------------

  /** `c.isspace()` */
  predicate IsSpace(c: char) {
    || c == ' ' || '\t' <= c <= '\r' || '\U{1C}' <= c <= '\U{1F}' || c == '\U{85}' || c == '\U{A0}'
    || c == '\U{1680}' || '\U{2000}' <= c <= '\U{200A}' || '\U{2028}' <= c <= '\U{2029}'
    || c == '\U{202F}' || c == '\U{205F}' || c == '\U{3000}'
  }

  predicate IsBlank(s: string) {
    forall i :: 0 <= i < |s| ==> IsSpace(s[i])
  }

  function LowerChar(c: char): char {
    if 'A' <= c <= 'Z' then ((c as int) + 32) as char else c
  }

  /** `s.lower()`, of ASCII letters. */
  function Lower(s: string): (r: string)
    ensures |r| == |s| && forall i :: 0 <= i < |s| ==> r[i] == LowerChar(s[i])
  {
    seq(|s|, i requires 0 <= i < |s| => LowerChar(s[i]))
  }

  /** The capitals become small letters, and everything else stays. */
  lemma LowerCharTable(c: char)
    ensures var capitals, small := "ABCDEFGHIJKLMNOPQRSTUVWXYZ", "abcdefghijklmnopqrstuvwxyz";
            && (c !in capitals ==> LowerChar(c) == c)
            && forall i :: 0 <= i < 26 && capitals[i] == c ==> LowerChar(c) == small[i]
  {
    var capitals, small := "ABCDEFGHIJKLMNOPQRSTUVWXYZ", "abcdefghijklmnopqrstuvwxyz";
    forall i | 0 <= i < 26
      ensures capitals[i] as int == 65 + i && small[i] as int == 97 + i
    {
    }
    if 'A' <= c <= 'Z' {
      assert capitals[c as int - 65] == c;
    }
  }

  function StripLeft(s: string): string {
    if s != "" && IsSpace(s[0]) then StripLeft(s[1..]) else s
  }

  function StripRight(s: string): string {
    if s != "" && IsSpace(s[|s| - 1]) then StripRight(s[..|s| - 1]) else s
  }

  /** `s.strip()` */
  function Strip(s: string): string {
    StripRight(StripLeft(s))
  }

  lemma {:induction false} StripLeftDropsPadding(pad: string, s: string)
    requires IsBlank(pad)
    ensures StripLeft(pad + s) == StripLeft(s)
  {
    if pad == "" {
      assert pad + s == s;
    } else {
      StripLeftDropsPadding(pad[1..], s);
      assert (pad + s)[1..] == pad[1..] + s;
    }
  }

  lemma {:induction false} StripRightDropsPadding(s: string, pad: string)
    requires IsBlank(pad)
    ensures StripRight(s + pad) == StripRight(s)
  {
    if pad == "" {
      assert s + pad == s;
    } else {
      StripRightDropsPadding(s, pad[..|pad| - 1]);
      assert (s + pad)[..|s + pad| - 1] == s + pad[..|pad| - 1];
    }
  }

  /** Stripping on the left commutes with padding on the right, unless nothing but blanks is there. */
  lemma {:induction false} StripLeftKeepsRight(s: string, pad: string)
    requires IsBlank(pad)
    ensures StripRight(StripLeft(s + pad)) == StripRight(StripLeft(s))
  {
    if s == "" {
      assert s + pad == pad + "";
      StripLeftDropsPadding(pad, "");
    } else if IsSpace(s[0]) {
      StripLeftKeepsRight(s[1..], pad);
      assert (s + pad)[1..] == s[1..] + pad;
    } else {
      StripRightDropsPadding(s, pad);
    }
  }

  lemma StripDropsPadding(before: string, s: string, after: string)
    requires IsBlank(before) && IsBlank(after)
    ensures Strip(before + s + after) == Strip(s)
  {
    assert before + s + after == before + (s + after);
    StripLeftDropsPadding(before, s + after);
    StripLeftKeepsRight(s, after);
  }

  predicate IsStripped(s: string) {
    s != "" ==> !IsSpace(s[0]) && !IsSpace(s[|s| - 1])
  }

  lemma {:induction false} StripRightIsCore(s: string) returns (after: string)
    ensures s == StripRight(s) + after && IsBlank(after)
    ensures StripRight(s) != "" ==> !IsSpace(StripRight(s)[|StripRight(s)| - 1])
  {
    if s != "" && IsSpace(s[|s| - 1]) {
      var n := |s| - 1;
      after := StripRightIsCore(s[..n]);
      assert s == s[..n] + [s[n]] == StripRight(s) + (after + [s[n]]);
      after := after + [s[n]];
    } else {
      after := "";
    }
  }

  lemma {:induction false} StripLeftIsCore(s: string) returns (before: string)
    ensures s == before + StripLeft(s) && IsBlank(before)
    ensures StripLeft(s) != "" ==> !IsSpace(StripLeft(s)[0])
  {
    if s != "" && IsSpace(s[0]) {
      before := StripLeftIsCore(s[1..]);
      assert s == [s[0]] + s[1..] == [s[0]] + before + StripLeft(s);
      before := [s[0]] + before;
    } else {
      before := "";
    }
  }

  /** Stripping takes blanks off both ends, and nothing else. */
  lemma StripIsCore(s: string) returns (before: string, after: string)
    ensures s == before + Strip(s) + after && IsBlank(before) && IsBlank(after) && IsStripped(Strip(s))
  {
    before := StripLeftIsCore(s);
    after := StripRightIsCore(StripLeft(s));
    if Strip(s) != "" {
      assert StripLeft(s)[0] == Strip(s)[0];
    }
  }

  lemma {:induction false} StripLeftOfLower(s: string)
    ensures StripLeft(Lower(s)) == Lower(StripLeft(s))
  {
    if s != "" && IsSpace(s[0]) {
      StripLeftOfLower(s[1..]);
      assert Lower(s)[1..] == Lower(s[1..]);
    }
  }

  lemma {:induction false} StripRightOfLower(s: string)
    ensures StripRight(Lower(s)) == Lower(StripRight(s))
  {
    if s != "" && IsSpace(s[|s| - 1]) {
      StripRightOfLower(s[..|s| - 1]);
      assert Lower(s)[..|s| - 1] == Lower(s[..|s| - 1]);
    }
  }

  lemma StripOfLower(s: string)
    ensures Strip(Lower(s)) == Lower(Strip(s))
  {
    StripLeftOfLower(s);
    StripRightOfLower(StripLeft(s));
  }
}
