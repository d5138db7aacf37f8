// Scope strings: splitting at white space, joining, and the two rules that narrow them
// (resolve_scope and the refresh check in src/services/oidc.rs).
module Scopes {
  import opened Base

  const OPENID := "openid"

  // Unicode White_Space, which is what both `trim` and `split_whitespace` go by.
  predicate IsSpace(c: char) {
    || '\t' <= c <= '\r' || c == ' ' || c == '\U{0085}' || c == '\U{00A0}' || c == '\U{1680}'
    || '\U{2000}' <= c <= '\U{200A}' || c == '\U{2028}' || c == '\U{2029}' || c == '\U{202F}'
    || c == '\U{205F}' || c == '\U{3000}'
  }

  // The 25 characters in a list.
  lemma SpacesAre(c: char)
    ensures IsSpace(c) <==> c as int in {
      0x09, 0x0A, 0x0B, 0x0C, 0x0D, 0x20, 0x85, 0xA0, 0x1680, 0x2000, 0x2001, 0x2002, 0x2003, 0x2004, 0x2005, 0x2006,
      0x2007, 0x2008, 0x2009, 0x200A, 0x2028, 0x2029, 0x202F, 0x205F, 0x3000}
  {
  }

  // How far the word at the front of the text reaches.
  function WordEnd(text: string): (n: nat)
    ensures n <= |text|
    ensures forall i | 0 <= i < n :: !IsSpace(text[i])
    ensures n < |text| ==> IsSpace(text[n])
  {
    if text == [] || IsSpace(text[0]) then 0 else 1 + WordEnd(text[1..])
  }

  predicate IsWord(w: string) {
    w != "" && forall i | 0 <= i < |w| :: !IsSpace(w[i])
  }

  function Words(text: string): (words: seq<string>)
    ensures forall i | 0 <= i < |words| :: IsWord(words[i])
    decreases |text|
  {
    if text == [] then []
    else if IsSpace(text[0]) then Words(text[1..])
    else [text[..WordEnd(text)]] + Words(text[WordEnd(text)..])
  }

  function Join(words: seq<string>): (r: string) {
    if words == [] then ""
    else if |words| == 1 then words[0]
    else words[0] + " " + Join(words[1..])
  }

  lemma {:induction false} WordEndBefore(w: string, rest: string)
    requires forall i | 0 <= i < |w| :: !IsSpace(w[i])
    requires rest == "" || IsSpace(rest[0])
    ensures WordEnd(w + rest) == |w|
  {
    if w != "" {
      assert (w + rest)[1..] == w[1..] + rest;
      WordEndBefore(w[1..], rest);
    } else {
      assert w + rest == rest;
    }
  }

  lemma WordsOfFront(w: string, rest: string)
    requires IsWord(w) && (rest == "" || IsSpace(rest[0]))
    ensures Words(w + rest) == [w] + Words(rest)
  {
    WordEndBefore(w, rest);
    assert (w + rest)[..|w|] == w && (w + rest)[|w|..] == rest;
    assert (w + rest)[0] == w[0];
  }

  // Joining words and splitting again gives the same words.
  lemma {:induction false} JoinReadsBack(words: seq<string>)
    requires forall i | 0 <= i < |words| :: IsWord(words[i])
    ensures Words(Join(words)) == words
  {
    hide Words, IsSpace;
    NoWords();
    if |words| == 1 {
      WordsOfFront(words[0], "");
      assert words[0] + "" == words[0];
    } else if |words| > 1 {
      var rest := " " + Join(words[1..]);
      BlankIsSkipped(Join(words[1..]));
      WordsOfFront(words[0], rest);
      assert Join(words) == words[0] + rest;
      JoinReadsBack(words[1..]);
    }
  }

  lemma BlankIsSkipped(text: string)
    ensures IsSpace((" " + text)[0]) && Words(" " + text) == Words(text)
  {
    assert (" " + text)[1..] == text;
  }

  ghost function ScopeSet(text: string): (r: set<string>) {
    set w | w in Words(text)
  }

  ghost predicate Distinct(words: seq<string>) {
    forall i, j | 0 <= i < j < |words| :: words[i] != words[j]
  }

  // The words in the order of their first use, each once.
  ghost function FirstUses(words: seq<string>): (r: seq<string>)
    ensures Distinct(r)
    ensures forall w :: w in r <==> w in words
  {
    if words == [] then []
    else
      var r := FirstUses(words[..|words| - 1]);
      assert words == words[..|words| - 1] + [words[|words| - 1]];
      if words[|words| - 1] in r then r else r + [words[|words| - 1]]
  }

  // What is granted for a request, if anything: all the words asked for, each allowed and
  // each named once; a blank request stands for the bare `openid`.
  ghost predicate Grants(allowed: seq<string>, requested: Option<string>, granted: string) {
    var asked := if requested.Some? then requested.value else "openid";
    if Words(asked) == [] then granted == "openid"
    else
      && Words(granted) == FirstUses(Words(asked))
      && granted == Join(Words(granted))
      && forall w | w in Words(granted) :: w in allowed
  }

  method ResolveScope(allowed: seq<string>, requested: Option<string>) returns (granted: Option<string>)
    ensures granted.Some? ==> Grants(allowed, requested, granted.value)
    // Refused exactly when a word that is not allowed was asked for.
    ensures granted.None? <==>
      exists w :: w in Words(if requested.Some? then requested.value else "openid") && w !in allowed
  {
    var asked := Words(if requested.Some? then requested.value else OPENID);
    if asked == [] {
      return Some(OPENID);
    }
    var words: seq<string> := [];
    for i := 0 to |asked|
      invariant words == FirstUses(asked[..i])
      invariant forall w | w in words :: w in allowed
    {
      assert asked[..i + 1][..i] == asked[..i];
      if asked[i] !in allowed {
        assert asked[i] in asked;
        return None;
      }
      if asked[i] !in words {
        words := words + [asked[i]];
      }
    }
    assert asked[..|asked|] == asked;
    forall i | 0 <= i < |words| ensures IsWord(words[i]) {
      assert words[i] in asked;
    }
    JoinReadsBack(words);
    granted := Some(Join(words));
  }

  lemma OpenidIsOneWord()
    ensures Words(OPENID) == [OPENID]
  {
    hide Words;
    WordsOfFront(OPENID, "");
    assert OPENID + "" == OPENID;
    NoWords();
  }

  lemma NoWords()
    ensures Words("") == []
  {
  }

  // A granted scope stays within what the client is allowed, or is the bare `openid` given
  // for a blank request (an absent scope is not blank: it asks for `openid`).
  lemma GrantedWithinAllowed(allowed: seq<string>, requested: Option<string>, granted: string)
    requires Grants(allowed, requested, granted)
    ensures (forall w | w in ScopeSet(granted) :: w in allowed)
      || (granted == "openid" && requested.Some? && Words(requested.value) == [])
  {
    hide Words, FirstUses, Join;
    OpenidIsOneWord();
  }

  // A refresh may name a scope of its own, if every word of it was granted before.
  predicate Narrows(requested: string, original: string) {
    forall i | 0 <= i < |Words(requested)| :: Words(requested)[i] in Words(original)
  }

  function RefreshScope(original: string, requested: Option<string>): (r: Option<string>) {
    match requested
    case None => Some(original)
    case Some(text) => if Narrows(text, original) then Some(text) else None
  }

  // A refresh goes through exactly when it asks for nothing new, and gets what it asks for, or
  // what was granted before.
  lemma RefreshNeverWidens(original: string, requested: Option<string>)
    ensures RefreshScope(original, requested).Some?
      <==> requested.None? || ScopeSet(requested.value) <= ScopeSet(original)
    ensures RefreshScope(original, requested).Some? ==>
      && RefreshScope(original, requested).value == (if requested.Some? then requested.value else original)
      && ScopeSet(RefreshScope(original, requested).value) <= ScopeSet(original)
  {
    if requested.Some? {
      var words := Words(requested.value);
      assert forall i | 0 <= i < |words| :: words[i] in ScopeSet(requested.value);
    }
  }

  method CheckRefreshScope(original: string, requested: Option<string>) returns (scope: Option<string>)
    ensures scope == RefreshScope(original, requested)
    ensures scope.Some? <==> requested.None? || ScopeSet(requested.value) <= ScopeSet(original)
    ensures scope.Some? ==> scope.value == if requested.Some? then requested.value else original
  {
    RefreshNeverWidens(original, requested);
    if requested.None? {
      return Some(original);
    }
    var asked, granted := Words(requested.value), Words(original);
    for i := 0 to |asked|
      invariant forall j | 0 <= j < i :: asked[j] in granted
    {
      if asked[i] !in granted {
        return None;
      }
    }
    scope := requested;
  }
}
