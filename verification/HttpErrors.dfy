/** The errors one platform call can meet, their texts, and which of them are
    taken for transport failures. */
module HttpErrors {
  import opened Wrappers

  datatype Failure =
    | AuthError
    | PermissionError
    | RedirectRefused
    | OverCap(maxBytes: nat)
    | RateLimitError(retryAfterMs: Option<real>, exhausted: bool)
    | HttpError(status: nat, body: string)
    | SyntaxError(complaint: string)
    | TransportError(text: string, errorCode: string)
    | NetworkError(cause: Option<Failure>)

  // ---------- Texts ----------

  function Decimal(n: nat): (digits: string)
    ensures digits != "" && forall c | c in digits :: '0' <= c <= '9'
  {
    if n < 10 then ['0' + n as char] else Decimal(n / 10) + ['0' + (n % 10) as char]
  }

  predicate IsSpace(c: char) {
    c in {' ', '\t', '\n', '\r'}
  }

  function TrimLeft(s: string): string {
    if s != "" && IsSpace(s[0]) then TrimLeft(s[1..]) else s
  }

  function TrimRight(s: string): string {
    if s != "" && IsSpace(s[|s| - 1]) then TrimRight(s[..|s| - 1]) else s
  }

  const SNIPPET_LENGTH: nat := 200
  const DASH := '\U{2014}'

  /** What an HTTP error quotes of the body. */
  function Snippet(body: string): string {
    var trimmed := TrimRight(TrimLeft(body));
    if |trimmed| <= SNIPPET_LENGTH then trimmed else trimmed[..SNIPPET_LENGTH]
  }

  /** Words with single spaces between them. */
  function Sentence(words: seq<string>): string {
    if words == [] then ""
    else if |words| == 1 then words[0]
    else words[0] + " " + Sentence(words[1..])
  }

  const REJECTED := ["Platform", "rejected", "the", "credentials."]
  const DENIED := ["Platform", "denied", "access", "to", "this", "resource."]
  const ANSWERED := ["Platform", "answered", "with", "a", "redirect,"]
  const REFUSED := ["which", "the", "outbound", "policy", "refuses."]
  const EXHAUSTED := ["Platform", "rate", "limit", "exhausted", "the", "retry", "budget."]
  const SPENT := ["Platform", "request", "budget", "is", "spent", "for", "this", "window."]
  const EXCEEDED := ["Platform", "response", "exceeded", "the", ""]
  const BYTE_CAP := ["-byte", "cap."]
  const HTTP := ["HTTP", ""]
  const REQUEST_FAILED := [":", "Platform", "request", "failed"]

  function HttpErrorHead(status: nat): string {
    Sentence(HTTP) + Decimal(status) + Sentence(REQUEST_FAILED)
  }

  /** The text of an error thrown while a request is under way. */
  function Message(f: Failure): string {
    match f
    case AuthError => Sentence(REJECTED)
    case PermissionError => Sentence(DENIED)
    case RedirectRefused => Sentence(ANSWERED + REFUSED)
    case OverCap(maxBytes) => Sentence(EXCEEDED) + Decimal(maxBytes) + Sentence(BYTE_CAP)
    case RateLimitError(_, exhausted) => Sentence(if exhausted then EXHAUSTED else SPENT)
    case HttpError(status, body) =>
      var snippet := Snippet(body);
      HttpErrorHead(status) + if snippet == "" then "" else " " + [DASH] + " " + snippet
    case SyntaxError(complaint) => complaint
    case TransportError(text, _) => text
    case NetworkError(_) => "Platform request failed after all retries."
  }

  function CodeOf(f: Failure): string {
    if f.TransportError? then f.errorCode else ""
  }

  // ---------- Transport hints ----------

  const NETWORK_ERROR_HINTS: seq<string> := [
    "timeout", "etimedout", "econnreset", "econnrefused", "econnaborted", "enotfound", "eai_again",
    "ehostunreach", "enetunreach", "epipe", "socket hang up", "network", "und_err"]

  function Lower(c: char): char {
    if 'A' <= c <= 'Z' then c + ('a' - 'A') else c
  }

  function LowerCase(s: string): string {
    seq(|s|, i requires 0 <= i < |s| => Lower(s[i]))
  }

  predicate Contains(s: string, part: string) {
    exists i: nat :: i <= |s| && At(s, part, i)
  }

  predicate At(s: string, part: string, i: nat) {
    i + |part| <= |s| && s[i..i + |part|] == part
  }

  predicate Hinted(s: string) {
    exists hint :: hint in NETWORK_ERROR_HINTS && Contains(LowerCase(s), hint)
  }

  /** Whether the catch block takes an error for a transport failure. */
  predicate IsNetworkError(f: Failure) {
    Hinted(Message(f)) || Hinted(CodeOf(f))
  }

  // ---------- The fixed texts hold no hint ----------

  /** Every hint holds one letter of each of these groups. */
  lemma HintLetters(hint: string)
    requires hint in NETWORK_ERROR_HINTS
    ensures 'e' in hint
    ensures 'i' in hint || 'n' in hint
    ensures 'c' in hint || 'd' in hint || 'i' in hint || 'k' in hint
    ensures 'o' in hint || 'p' in hint || 'u' in hint || '_' in hint
  {
    match hint
    case "timeout" => assert hint[3] == 'e' && hint[1] == 'i' && hint[1] == 'i' && hint[4] == 'o';
    case "etimedout" => assert hint[0] == 'e' && hint[2] == 'i' && hint[2] == 'i' && hint[6] == 'o';
    case "econnreset" => assert hint[0] == 'e' && hint[3] == 'n' && hint[1] == 'c' && hint[2] == 'o';
    case "econnrefused" => assert hint[0] == 'e' && hint[3] == 'n' && hint[1] == 'c' && hint[2] == 'o';
    case "econnaborted" => assert hint[0] == 'e' && hint[3] == 'n' && hint[1] == 'c' && hint[2] == 'o';
    case "enotfound" => assert hint[0] == 'e' && hint[1] == 'n' && hint[8] == 'd' && hint[2] == 'o';
    case "eai_again" => assert hint[0] == 'e' && hint[2] == 'i' && hint[2] == 'i' && hint[3] == '_';
    case "ehostunreach" => assert hint[0] == 'e' && hint[6] == 'n' && hint[10] == 'c' && hint[2] == 'o';
    case "enetunreach" => assert hint[0] == 'e' && hint[1] == 'n' && hint[9] == 'c' && hint[4] == 'u';
    case "epipe" => assert hint[0] == 'e' && hint[2] == 'i' && hint[2] == 'i' && hint[1] == 'p';
    case "socket hang up" => assert hint[4] == 'e' && hint[9] == 'n' && hint[2] == 'c' && hint[1] == 'o' && hint[3] == 'k';
    case "network" => assert hint[1] == 'e' && hint[0] == 'n' && hint[6] == 'k' && hint[4] == 'o';
    case "und_err" => assert hint[4] == 'e' && hint[1] == 'n' && hint[2] == 'd' && hint[0] == 'u';
  }

  /** None holds a digit or a dash, and only one, which has a k, a space. */
  lemma HintsArePlain(hint: string)
    requires hint in NETWORK_ERROR_HINTS
    ensures hint != "" && hint[0] != ' '
    ensures forall c | c in hint :: c != DASH && !('0' <= c <= '9') && Lower(c) == c
  {
  }

  /** Each of these, in any case and inside any text, is taken for a transport failure. */
  lemma HintsCount(hint: string, spelled: string, before: string, after: string)
    requires hint in {"timeout", "etimedout", "econnreset", "econnrefused", "econnaborted", "enotfound", "eai_again",
                      "ehostunreach", "enetunreach", "epipe", "socket hang up", "network", "und_err"}
    requires |spelled| == |hint| && forall i | 0 <= i < |hint| :: Lower(spelled[i]) == hint[i]
    ensures Hinted(before + spelled + after)
    ensures IsNetworkError(TransportError(before + spelled + after, "")) && IsNetworkError(TransportError("", before + spelled + after))
  {
    assert hint in NETWORK_ERROR_HINTS;
    SpelledInside(hint, spelled, before, after);
  }

  lemma SpelledInside(hint: string, spelled: string, before: string, after: string)
    requires |spelled| == |hint| && forall i | 0 <= i < |hint| :: Lower(spelled[i]) == hint[i]
    ensures Contains(LowerCase(before + spelled + after), hint)
  {
    hide Lower;
    var s := LowerCase(before + spelled + after);
    var i := |before|;
    assert s[i..i + |hint|] == hint;
    assert At(s, hint, i);
  }

  /** What is quoted of a body is at most its first 200 characters, the spaces around it cut off. */
  lemma SnippetQuotes(body: string) returns (left: string, trimmed: string, right: string)
    ensures body == left + trimmed + right
    ensures forall c | c in left || c in right :: c in {' ', '\t', '\n', '\r'}
    ensures trimmed != "" ==> trimmed[0] !in {' ', '\t', '\n', '\r'} && trimmed[|trimmed| - 1] !in {' ', '\t', '\n', '\r'}
    ensures Snippet(body) == if |trimmed| <= 200 then trimmed else trimmed[..200]
  {
    var tail := TrimLeft(body);
    left := TrimmedLeft(body);
    trimmed := TrimRight(tail);
    right := TrimmedRight(tail);
    assert trimmed != "" ==> trimmed[0] == tail[0];
  }

  lemma {:induction false} TrimmedLeft(s: string) returns (spaces: string)
    ensures s == spaces + TrimLeft(s) && forall c | c in spaces :: IsSpace(c)
    ensures TrimLeft(s) != "" ==> !IsSpace(TrimLeft(s)[0])
  {
    if s != "" && IsSpace(s[0]) {
      spaces := TrimmedLeft(s[1..]);
      spaces := [s[0]] + spaces;
      assert s == [s[0]] + s[1..];
    } else {
      spaces := "";
    }
  }

  lemma {:induction false} TrimmedRight(s: string) returns (spaces: string)
    ensures s == TrimRight(s) + spaces && forall c | c in spaces :: IsSpace(c)
    ensures TrimRight(s) != "" ==> !IsSpace(TrimRight(s)[|TrimRight(s)| - 1])
  {
    if s != "" && IsSpace(s[|s| - 1]) {
      spaces := TrimmedRight(s[..|s| - 1]);
      spaces := spaces + [s[|s| - 1]];
      assert s == s[..|s| - 1] + [s[|s| - 1]];
    } else {
      spaces := "";
    }
  }

  lemma SpacedHintHasK(hint: string)
    requires hint in NETWORK_ERROR_HINTS
    ensures ' ' in hint ==> 'k' in hint
  {
    if hint == "socket hang up" {
      assert hint[3] == 'k';
    }
  }

  datatype Group = E | IN | CDIK | OPU

  /** A letter of the group, or the k. */
  predicate Among(g: Group, c: char) {
    c == 'k' ||
    match g
    case E => c == 'e'
    case IN => c == 'i' || c == 'n'
    case CDIK => c == 'c' || c == 'd' || c == 'i'
    case OPU => c == 'o' || c == 'p' || c == 'u' || c == '_'
  }

  predicate Lacks(s: string, g: Group) {
    forall c | c in s :: !Among(g, Lower(c))
  }

  predicate HasNoK(s: string) {
    forall c | c in s :: Lower(c) != 'k'
  }

  /** A text without a hint, and without the letter of the only one that spans words. */
  predicate Quiet(s: string) {
    HasNoK(s) && !Hinted(s)
  }

  /** A text that lacks a whole group holds no hint. */
  lemma QuietWord(w: string)
    requires LacksAGroup(w)
    ensures Quiet(w)
  {
    hide LowerCase; hide Lower;
    forall hint | hint in NETWORK_ERROR_HINTS ensures !Contains(LowerCase(w), hint) {
      HintLetters(hint);
      if i: nat :| At(LowerCase(w), hint, i) {
        HintLettersOccur(w, hint, i);
      }
    }
  }

  lemma HintLettersOccur(s: string, hint: string, i: nat)
    requires At(LowerCase(s), hint, i)
    ensures forall c | c in hint :: exists d :: d in s && Lower(d) == c
  {
    forall c | c in hint ensures exists d :: d in s && Lower(d) == c {
      var j: nat :| j < |hint| && hint[j] == c;
      assert LowerCase(s)[i..i + |hint|][j] == LowerCase(s)[i + j] == Lower(s[i + j]);
      assert s[i + j] in s;
    }
  }

  /** Quiet texts around a space or a digit make a quiet text. */
  lemma QuietAround(a: string, c: char, b: string)
    requires Quiet(a) && Quiet(b) && (c == ' ' || '0' <= c <= '9')
    ensures Quiet(a + [c] + b)
  {
    hide Contains;
    var s := a + [c] + b;
    assert LowerCase(s) == LowerCase(a) + [c] + LowerCase(b);
    assert HasNoK(s);
    forall hint | hint in NETWORK_ERROR_HINTS ensures !Contains(LowerCase(s), hint) {
      HintsArePlain(hint);
      SpacedHintHasK(hint);
      if 'k' in hint {
        LackedLetter(s, hint);
      } else {
        ContainsAround(LowerCase(a), c, LowerCase(b), hint);
      }
    }
  }

  lemma LackedLetter(s: string, hint: string)
    requires HasNoK(s) && 'k' in hint
    ensures !Contains(LowerCase(s), hint)
  {
    if i: nat :| At(LowerCase(s), hint, i) {
      HintLettersOccur(s, hint, i);
    }
  }

  lemma {:induction false} QuietSentence(words: seq<string>)
    requires forall w | w in words :: Quiet(w)
    ensures Quiet(Sentence(words))
  {
    hide Quiet;
    if |words| == 0 {
      NothingIsQuiet();
    } else if |words| > 1 {
      QuietSentence(words[1..]);
      QuietAround(words[0], ' ', Sentence(words[1..]));
    }
  }

  lemma NothingIsQuiet()
    ensures Quiet("")
  {
    assert Lacks("", E);
    QuietWord("");
  }

  /** Digits between two quiet texts. */
  lemma {:induction false} QuietDigits(a: string, digits: string, b: string)
    requires Quiet(a) && Quiet(b) && digits != "" && forall c | c in digits :: '0' <= c <= '9'
    ensures Quiet(a + digits + b)
    decreases |digits|
  {
    hide Quiet;
    assert digits[0] in digits;
    if |digits| == 1 {
      QuietAround(a, digits[0], b);
      assert digits == [digits[0]];
    } else {
      var rest := digits[1..];
      NothingIsQuiet();
      assert forall c | c in rest :: c in digits;
      QuietDigits("", rest, b);
      assert "" + rest + b == rest + b;
      QuietAround(a, digits[0], rest + b);
      assert a + digits + b == a + [digits[0]] + (rest + b);
    }
  }

  ghost predicate LacksAGroup(w: string) {
    exists g: Group :: Lacks(w, g)
  }

  lemma CredentialsLack()
    ensures Lacks("credentials.", OPU)
  {
  }

  lemma RejectedLacks()
    ensures forall w | w in REJECTED :: LacksAGroup(w)
  {
    CredentialsLack();
    assert Lacks("Platform", E);
    assert Lacks("rejected", IN);
    assert Lacks("the", IN);
  }

  lemma DeniedLacks()
    ensures forall w | w in DENIED :: LacksAGroup(w)
  {
    assert Lacks("Platform", E);
    assert Lacks("denied", OPU);
    assert Lacks("access", IN);
    assert Lacks("to", E);
    assert Lacks("this", E);
    assert Lacks("resource.", IN);
  }

  lemma AnsweredLacks()
    ensures forall w | w in ANSWERED :: LacksAGroup(w)
  {
    assert Lacks("Platform", E);
    assert Lacks("answered", OPU);
    assert Lacks("with", E);
    assert Lacks("a", E);
    assert Lacks("redirect,", OPU);
  }

  lemma RefusedLacks()
    ensures forall w | w in REFUSED :: LacksAGroup(w)
  {
    assert Lacks("which", E);
    assert Lacks("the", IN);
    assert Lacks("outbound", E);
    assert Lacks("policy", E);
    assert Lacks("refuses.", IN);
  }

  lemma ExhaustedLacks()
    ensures forall w | w in EXHAUSTED :: LacksAGroup(w)
  {
    assert Lacks("Platform", E);
    assert Lacks("rate", IN);
    assert Lacks("limit", E);
    assert Lacks("exhausted", IN);
    assert Lacks("the", IN);
    assert Lacks("retry", IN);
    assert Lacks("budget.", IN);
  }

  lemma SpentLacks()
    ensures forall w | w in SPENT :: LacksAGroup(w)
  {
    assert Lacks("Platform", E);
    assert Lacks("request", IN);
    assert Lacks("budget", IN);
    assert Lacks("is", E);
    assert Lacks("spent", CDIK);
    assert Lacks("for", E);
    assert Lacks("this", E);
    assert Lacks("window.", E);
  }

  lemma ExceededLacks()
    ensures forall w | w in EXCEEDED :: LacksAGroup(w)
  {
    assert Lacks("Platform", E);
    assert Lacks("response", CDIK);
    assert Lacks("exceeded", IN);
    assert Lacks("the", IN);
    assert Lacks("", E);
  }

  lemma ByteCapLacks()
    ensures forall w | w in BYTE_CAP :: LacksAGroup(w)
  {
    assert Lacks("-byte", IN);
    assert Lacks("cap.", E);
  }

  lemma HttpLacks()
    ensures forall w | w in HTTP :: LacksAGroup(w)
  {
    assert Lacks("HTTP", E);
    assert Lacks("", E);
  }

  lemma RequestFailedLacks()
    ensures forall w | w in REQUEST_FAILED :: LacksAGroup(w)
  {
    assert Lacks(":", E);
    assert Lacks("Platform", E);
    assert Lacks("request", IN);
    assert Lacks("failed", OPU);
  }

  lemma QuietText(words: seq<string>)
    requires forall w | w in words :: LacksAGroup(w)
    ensures Quiet(Sentence(words))
  {
    hide Quiet; hide Lacks;
    forall w | w in words ensures Quiet(w) {
      QuietWord(w);
    }
    QuietSentence(words);
  }

  /** Decisions of this side and of the platform are never taken for transport
      failures, whatever byte cap and waits they carry. */
  lemma DecisionsAreNotNetworkErrors(f: Failure)
    requires f in {AuthError, PermissionError, RedirectRefused} || f.OverCap? || f.RateLimitError?
    ensures !IsNetworkError(f)
  {
    hide Hinted; hide Decimal; hide Sentence; hide LacksAGroup; hide Lacks;
    NothingIsQuiet();
    match f
    case AuthError =>
      RejectedLacks();
      QuietText(REJECTED);
    case PermissionError =>
      DeniedLacks();
      QuietText(DENIED);
    case RedirectRefused =>
      AnsweredLacks();
      RefusedLacks();
      QuietText(ANSWERED + REFUSED);
    case RateLimitError(_, exhausted) =>
      ExhaustedLacks();
      SpentLacks();
      QuietText(if exhausted then EXHAUSTED else SPENT);
    case OverCap(maxBytes) =>
      ExceededLacks();
      QuietText(EXCEEDED);
      ByteCapLacks();
      QuietText(BYTE_CAP);
      QuietDigits(Sentence(EXCEEDED), Decimal(maxBytes), Sentence(BYTE_CAP));
  }

  // ---------- HTTP errors ----------

  lemma MiddleLetter(a: string, c: char, b: string, part: string, i: nat)
    requires At(a + [c] + b, part, i)
    ensures i <= |a| < i + |part| ==> c in part
  {
    if i <= |a| < i + |part| {
      assert part[|a| - i] == (a + [c] + b)[|a|];
    }
  }

  /** A part without a character occurs around that character only on one side of it. */
  lemma ContainsAround(a: string, c: char, b: string, part: string)
    requires part != "" && c !in part
    ensures Contains(a + [c] + b, part) <==> Contains(a, part) || Contains(b, part)
  {
    var s := a + [c] + b;
    if i: nat :| At(s, part, i) {
      MiddleLetter(a, c, b, part, i);
      assert i + |part| <= |a| ==> At(a, part, i);
      assert i > |a| ==> At(b, part, i - |a| - 1);
    }
    if i: nat :| At(a, part, i) {
      assert At(s, part, i);
    }
    if i: nat :| At(b, part, i) {
      var k := |a| + 1 + i;
      assert s[k..k + |part|] == b[i..i + |part|];
      assert At(s, part, k);
    }
  }

  lemma ContainsAfterFirst(c: char, s: string, part: string)
    requires part != "" && part[0] != c
    ensures Contains([c] + s, part) <==> Contains(s, part)
  {
    var more := [c] + s;
    if i: nat :| At(more, part, i) {
      assert part[0] == more[i];
      assert At(s, part, i - 1);
    }
    if i: nat :| At(s, part, i) {
      assert more[i + 1..i + 1 + |part|] == s[i..i + |part|];
      assert At(more, part, i + 1);
    }
  }

  lemma HeadIsQuiet(status: nat)
    ensures Quiet(HttpErrorHead(status)) && Quiet(HttpErrorHead(status) + " ")
  {
    hide Quiet; hide Decimal; hide Sentence; hide LacksAGroup;
    NothingIsQuiet();
    HttpLacks();
    RequestFailedLacks();
    QuietText(HTTP);
    QuietText(REQUEST_FAILED);
    QuietDigits(Sentence(HTTP), Decimal(status), Sentence(REQUEST_FAILED));
    QuietAround(HttpErrorHead(status), ' ', "");
    assert HttpErrorHead(status) + [' '] + "" == HttpErrorHead(status) + " ";
  }

  /** An HTTP error is taken for a transport failure exactly when what it quotes
      of the body holds a hint, in any case. */
  lemma HttpErrorIsNetworkErrorIff(status: nat, body: string)
    ensures IsNetworkError(HttpError(status, body)) <==> Hinted(Snippet(body))
  {
    hide Snippet; hide Hinted; hide HttpErrorHead;
    var head, snippet := HttpErrorHead(status), Snippet(body);
    HeadIsQuiet(status);
    NothingIsQuiet();
    if snippet == "" {
      assert head + "" == head;
    } else {
      QuotedHints(head + " ", snippet);
      assert head + (" " + [DASH] + " " + snippet) == head + " " + [DASH] + " " + snippet;
    }
  }

  lemma QuotedHints(head: string, snippet: string)
    requires !Hinted(head)
    ensures Hinted(head + [DASH] + " " + snippet) <==> Hinted(snippet)
  {
    hide Contains; hide Lower;
    var all := head + [DASH] + " " + snippet;
    var h, t := LowerCase(head), LowerCase(snippet);
    assert Lower(DASH) == DASH && Lower(' ') == ' ' by { LowerKeeps(); }
    assert LowerCase(all) == h + [DASH] + ([' '] + t);
    forall hint | hint in NETWORK_ERROR_HINTS ensures Contains(LowerCase(all), hint) <==> Contains(t, hint) {
      HintsArePlain(hint);
      ContainsAround(h, DASH, [' '] + t, hint);
      ContainsAfterFirst(' ', t, hint);
    }
  }

  lemma LowerKeeps()
    ensures Lower(DASH) == DASH && Lower(' ') == ' '
  {
  }
}
