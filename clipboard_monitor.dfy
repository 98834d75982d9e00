/** ClipboardMonitor in the editor extension: find a session token in the
    clipboard text and decide which notice to give about it. */
module Clipboard {
  import opened Common

  /** The literal that precedes the token in the regular expression. */
  const TokenPrefix: string := "WorkosCursorSessionToken="

  /** JavaScript's \s class. */
  predicate IsJsWhitespace(c: char) {
    || c == '\t' || c == '\n' || c == '\U{000B}' || c == '\U{000C}' || c == '\r' || c == ' '
    || c == '\U{00A0}' || c == '\U{1680}' || ('\U{2000}' <= c <= '\U{200A}')
    || c == '\U{2028}' || c == '\U{2029}' || c == '\U{202F}' || c == '\U{205F}'
    || c == '\U{3000}' || c == '\U{FEFF}'
  }

  /** The characters [^\n\s;] does not accept. */
  predicate EndsToken(c: char) {
    c == '\n' || IsJsWhitespace(c) || c == ';'
  }

  /** The regular expression matches at i: the prefix, then at least one
      token character. */
  predicate MatchesAt(s: string, i: nat) {
    OccursAt(s, TokenPrefix, i) && i + |TokenPrefix| < |s| && !EndsToken(s[i + |TokenPrefix|])
  }

  /** The longest run of token characters starting at j (the greedy +). */
  function TokenRun(s: string, j: nat): (t: string)
    requires j <= |s|
    ensures j + |t| <= |s| && t == s[j..j + |t|]
    ensures forall k :: 0 <= k < |t| ==> !EndsToken(t[k])
    ensures j + |t| == |s| || EndsToken(s[j + |t|])
    decreases |s| - j
  {
    if j == |s| || EndsToken(s[j]) then []
    else
      var rest := TokenRun(s, j + 1);
      assert s[j..j + 1 + |rest|] == [s[j]] + rest;
      [s[j]] + rest
  }

  /** The capture group of the leftmost match at or after `from`. */
  function FirstToken(s: string, from: nat): (r: Option<string>)
    ensures r.Some? ==> exists i: nat :: from <= i && MatchesAt(s, i) &&
                          (forall j: nat :: from <= j < i ==> !MatchesAt(s, j)) &&
                          r.value == TokenRun(s, i + |TokenPrefix|)
    ensures r.None? <==> forall i: nat :: from <= i ==> !MatchesAt(s, i)
    ensures r.Some? ==> |r.value| > 0
    decreases |s| - from
  {
    if from + |TokenPrefix| >= |s| then None
    else if MatchesAt(s, from) then Some(TokenRun(s, from + |TokenPrefix|))
    else FirstToken(s, from + 1)
  }

  /** clipboardText.match(...)?.[1]. */
  function TokenInClipboard(text: string): Option<string> {
    FirstToken(text, 0)
  }

  /** A token followed by a separator is read up to the separator. */
  lemma TokenStopsAtSeparator(token: string, rest: string)
    requires |token| > 0 && forall k :: 0 <= k < |token| ==> !EndsToken(token[k])
    ensures TokenInClipboard(TokenPrefix + token + ";" + rest) == Some(token)
  {
    var s := TokenPrefix + token + ";" + rest;
    var p := |TokenPrefix|;
    assert s[..p] == TokenPrefix;
    assert s[p] == token[0];
    assert MatchesAt(s, 0);
    var t := TokenRun(s, p);
    assert s[p..p + |token|] == token;
    assert s[p + |token|] == ';';
    TokenRunIsMaximal(s, p, |token|);
  }

  /** TokenRun stops at the first separator and not before it. */
  lemma TokenRunIsMaximal(s: string, j: nat, n: nat)
    requires j + n < |s| && EndsToken(s[j + n])
    requires forall k :: j <= k < j + n ==> !EndsToken(s[k])
    ensures TokenRun(s, j) == s[j..j + n]
  {
    var t := TokenRun(s, j);
    if |t| < n {
      assert false;
    } else if |t| > n {
      assert false;
    }
  }

  /** What handleTokenDetected tells the user. */
  datatype Notice =
    | OfferUpdate(token: string)   // "Found Cursor session token in clipboard. Update configuration?"
    | AlreadyConfigured            // "Cursor session token already configured."
    | Quiet

  class ClipboardMonitor {
    var lastNotifiedToken: Option<string>

    constructor ()
      ensures lastNotifiedToken == None
    {
      lastNotifiedToken := None;
    }

    /** handleTokenDetected; `currentToken` is the configured session token. */
    method HandleTokenDetected(token: string, currentToken: Option<string>) returns (notice: Notice)
      modifies this
      ensures (notice, lastNotifiedToken) == NoticeFor(old(lastNotifiedToken), token, currentToken)
    {
      if currentToken != Some(token) {
        notice := OfferUpdate(token);
        lastNotifiedToken := None;
      } else if lastNotifiedToken != Some(token) {
        notice := AlreadyConfigured;
        lastNotifiedToken := Some(token);
      } else {
        notice := Quiet;
      }
    }

    /** checkForToken on one clipboard read. */
    method CheckForToken(clipboardText: string, currentToken: Option<string>) returns (notice: Notice)
      modifies this
      ensures TokenInClipboard(clipboardText).None? ==>
        notice == Quiet && lastNotifiedToken == old(lastNotifiedToken)
      ensures TokenInClipboard(clipboardText).Some? ==>
        (notice, lastNotifiedToken) ==
          NoticeFor(old(lastNotifiedToken), TokenInClipboard(clipboardText).value, currentToken)
    {
      var found := TokenInClipboard(clipboardText);
      if found.None? {
        return Quiet;
      }
      notice := HandleTokenDetected(found.value, currentToken);
    }
  }

  /** The notice and the new lastNotifiedToken. */
  function NoticeFor(last: Option<string>, token: string, current: Option<string>): (Notice, Option<string>) {
    if current != Some(token) then (OfferUpdate(token), None)
    else if last != Some(token) then (AlreadyConfigured, Some(token))
    else (Quiet, last)
  }

  /** A token that is already configured is announced once: the same token
      found again stays quiet, for any number of further reads. */
  lemma {:induction false} AlreadyConfiguredOnce(last: Option<string>, token: string, reads_: nat)
    ensures var first := NoticeFor(last, token, Some(token));
            first.0 != Quiet ==> first.0 == AlreadyConfigured
    ensures Repeat(NoticeFor(last, token, Some(token)).1, token, reads_) == (Quiet, Some(token))
              || reads_ == 0
    decreases reads_
  {
    if reads_ > 1 {
      AlreadyConfiguredOnce(last, token, reads_ - 1);
    }
  }

  /** Reading the same configured token `n` more times. */
  function Repeat(last: Option<string>, token: string, n: nat): (Notice, Option<string>)
    decreases n
  {
    if n == 0 then (Quiet, last)
    else
      var prev := Repeat(last, token, n - 1);
      NoticeFor(prev.1, token, Some(token))
  }

  /** A token that differs from the configuration is always offered, and
      forgets the last announcement so a later match is announced again. */
  lemma NewTokenIsOffered(last: Option<string>, token: string, current: Option<string>)
    requires current != Some(token)
    ensures NoticeFor(last, token, current) == (OfferUpdate(token), None)
    ensures NoticeFor(None, token, Some(token)).0 == AlreadyConfigured
  {
  }
}
