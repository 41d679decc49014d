/**
 * The Slack bot's mention handler: strip user mentions from the event
 * text, ask the backend, and address the reply to the mentioning user
 * (SlackApp/app.ts).
 */
module Slack {
  import opened Strings
  import opened Http

  /** What `fetchBotResponse` returns whenever the backend call fails. */
  const Fallback := "Sorry, I'm having trouble connecting to my backend. Please try again later."

  /** The text of the reply the handler posts when its own body fails. */
  const HandlerApology := "Sorry, I encountered an error. Please try again later."

  /** A character of the class `[A-Z0-9]`. */
  predicate IsIdChar(c: char) {
    ('A' <= c <= 'Z') || ('0' <= c <= '9')
  }

  /**
   * `t` is exactly one match of the pattern `<@[A-Z0-9]+>`. Its only `<`
   * is the first character and its only `>` the last, since neither is in
   * the character class.
   */
  predicate IsMention(t: string)
    ensures IsMention(t) ==> forall i :: 0 < i < |t| ==> t[i] != '<'
    ensures IsMention(t) ==> forall i :: 0 <= i < |t| - 1 ==> t[i] != '>'
  {
    |t| >= 4 && t[0] == '<' && t[1] == '@' && t[|t| - 1] == '>'
    && forall i :: 2 <= i < |t| - 1 ==> IsIdChar(t[i])
  }

  /** The length of the longest run of `[A-Z0-9]` that `s` starts with. */
  function IdRun(s: string): (k: nat)
    ensures k <= |s|
    ensures forall i :: 0 <= i < k ==> IsIdChar(s[i])
    ensures k < |s| ==> !IsIdChar(s[k])
    decreases |s|
  {
    if |s| > 0 && IsIdChar(s[0]) then 1 + IdRun(s[1..]) else 0
  }

  /**
   * The length of the match of `<@[A-Z0-9]+>` that starts at the front of
   * `s`, or 0 when none does. A match, when there is one, is unique,
   * because `>` is not in the character class.
   */
  function MentionAt(s: string): (n: nat)
    ensures n <= |s|
    ensures n > 0 ==> IsMention(s[..n])
    ensures forall j :: 0 <= j <= |s| && IsMention(s[..j]) ==> j == n
  {
    var n :=
      if |s| >= 2 && s[0] == '<' && s[1] == '@' then
        var k := IdRun(s[2..]);
        if k >= 1 && 2 + k < |s| && s[2 + k] == '>' then k + 3 else 0
      else 0;
    n
  }

  /**
   * One left-to-right pass of `replace(/<@[A-Z0-9]+>/g, "")`: at each
   * position a match is removed and scanning resumes after it; otherwise
   * the character is kept and scanning moves on by one.
   */
  function RemoveMentions(s: string): (r: string)
    ensures |r| <= |s|
    decreases |s|
  {
    if s == [] then []
    else
      var n := MentionAt(s);
      if n > 0 then RemoveMentions(s[n..]) else [s[0]] + RemoveMentions(s[1..])
  }

  /** The text the handler sends to the backend: mentions removed, then trimmed. */
  function StripMentions(text: string): (r: string)
    ensures Trimmed(r)
    ensures |r| <= |text|
  {
    Trim(RemoveMentions(text))
  }

  /** A non-empty run of `[A-Z0-9]`: the id a mention can carry. */
  predicate IdText(s: string) {
    |s| >= 1 && forall i :: 0 <= i < |s| ==> IsIdChar(s[i])
  }

  /** `s` has no `<`, so no match can start in it. */
  predicate NoBracket(s: string) {
    forall i :: 0 <= i < |s| ==> s[i] != '<'
  }

  /** `<@id>` is a match for every id the character class allows. */
  lemma MentionOf(id: string)
    requires IdText(id)
    ensures IsMention("<@" + id + ">")
  {
    var m := "<@" + id + ">";
    forall i | 2 <= i < |m| - 1 ensures IsIdChar(m[i]) {
      assert m[i] == id[i - 2];
    }
  }

  /** A removed match leaves no trace: scanning resumes right after it. */
  lemma LeadingMentionRemoved(m: string, rest: string)
    requires IsMention(m)
    ensures RemoveMentions(m + rest) == RemoveMentions(rest)
  {
    var s := m + rest;
    assert s[..|m|] == m;
    assert MentionAt(s) == |m|;
    assert s[|m|..] == rest;
  }

  /**
   * A character at which no match starts is copied to the output: the
   * second branch of the scanner's definition, stated on its own.
   */
  lemma LeadingCharKept(c: char, rest: string)
    requires MentionAt([c] + rest) == 0
    ensures RemoveMentions([c] + rest) == [c] + RemoveMentions(rest)
  {
    var s := [c] + rest;
    assert s[1..] == rest;
  }

  /** Text that contains no match is left as it is by the removal pass. */
  lemma {:induction false} NoMentionUnchanged(s: string)
    requires forall i, j :: 0 <= i <= j <= |s| ==> !IsMention(s[i..j])
    ensures RemoveMentions(s) == s
    decreases |s|
  {
    if s != [] {
      assert !IsMention(s[..MentionAt(s)]) by {
        assert s[..MentionAt(s)] == s[0..MentionAt(s)];
      }
      forall i, j | 0 <= i <= j <= |s[1..]| ensures !IsMention(s[1..][i..j]) {
        assert s[1..][i..j] == s[i + 1..j + 1];
      }
      NoMentionUnchanged(s[1..]);
      assert [s[0]] + s[1..] == s;
      LeadingCharKept(s[0], s[1..]);
    }
  }

  /** Text without a `<` is left as it is by the removal pass. */
  lemma {:induction false} NoBracketUnchanged(s: string)
    requires NoBracket(s)
    ensures RemoveMentions(s) == s
    decreases |s|
  {
    if s != [] {
      assert [s[0]] + s[1..] == s;
      LeadingCharKept(s[0], s[1..]);
      NoBracketUnchanged(s[1..]);
    }
  }

  /** Text without a `<` contains no match, so it is only trimmed. */
  lemma NoOpeningBracketOnlyTrimmed(s: string)
    requires NoBracket(s)
    ensures StripMentions(s) == Trim(s)
  {
    NoBracketUnchanged(s);
  }

  /**
   * Rewriting the part of a text after a known prefix `p`, giving `r`.
   * This only restates its hypotheses as one equation; it exists so that
   * the proofs using it chain such equations on plain texts, without the
   * verifier comparing scanner results character by character.
   */
  lemma AfterPrefixEq(a: string, p: string, x: string, y: string, r: string)
    requires a == p + x && x == y && p + y == r
    ensures a == r
  {
  }

  /**
   * The two characters of `<@` put back in front of a text, one at a time.
   * Like `AfterPrefixEq`, a restatement of its hypotheses that keeps the
   * verifier from unfolding the scanner.
   */
  lemma OpenerEq(a: string, b: string, x: string, y: string)
    requires a == ['<'] + b && b == ['@'] + x && x == y
    ensures a == "<@" + y
  {
  }

  /** A leading mention followed by text without a `<`: only that text, trimmed, is left. */
  lemma LeadingTokenThenPlain(id: string, rest: string)
    requires IdText(id) && NoBracket(rest)
    ensures StripMentions("<@" + id + ">" + rest) == Trim(rest)
  {
    MentionOf(id);
    LeadingMentionRemoved("<@" + id + ">", rest);
    NoBracketUnchanged(rest);
  }

  /** A mention, whitespace, and a plain question: the question alone is sent. */
  lemma MentionThenQuestion(id: string, p: string, t: string)
    requires IdText(id) && Blank(p) && Trimmed(t) && NoBracket(t)
    ensures StripMentions("<@" + id + ">" + (p + t)) == t
  {
    forall i | 0 <= i < |p + t| ensures (p + t)[i] != '<' {
      if i < |p| {
        assert (p + t)[i] == p[i];
      } else {
        assert (p + t)[i] == t[i - |p|];
      }
    }
    LeadingTokenThenPlain(id, p + t);
    TrimLeading(p, t);
  }

  /**
   * The usual event text: the bot's mention, a space, and the question.
   * The text is `<@U123ABC> hello there`, written in pieces.
   */
  lemma LeadingMentionExample()
    ensures StripMentions("<@" + "U123ABC" + ">" + (" " + "hello there")) == "hello there"
  {
    MentionThenQuestion("U123ABC", " ", "hello there");
  }

  /**
   * Regrouping `<@` in front of two texts as its two characters, one at a
   * time; a sequence identity that keeps the verifier from unfolding the
   * scanner in the proofs that use it.
   */
  lemma OpenerSplit(inner: string, rest: string)
    ensures "<@" + inner + rest == ['<'] + (['@'] + (inner + rest))
  {
  }

  /** A `<@` whose next character is `<` is kept, character by character. */
  lemma OpenerBeforeBracketKept(inner: string, rest: string)
    requires |inner| > 0 && inner[0] == '<'
    ensures RemoveMentions(['<'] + (['@'] + (inner + rest))) == ['<'] + RemoveMentions(['@'] + (inner + rest))
  {
    var t := ['@'] + (inner + rest);
    assert (['<'] + t)[2..][0] == '<';
    LeadingCharKept('<', t);
  }

  /** `@` never starts a match. */
  lemma AtSignKept(rest: string)
    ensures RemoveMentions(['@'] + rest) == ['@'] + RemoveMentions(rest)
  {
    LeadingCharKept('@', rest);
  }

  /**
   * A match right after `<@` is removed, but the `<@` in front of it is
   * kept: no match starts there, since the next character is `<`.
   */
  lemma NestedMentionRemoved(inner: string, rest: string)
    requires IsMention(inner)
    ensures RemoveMentions("<@" + inner + rest) == "<@" + RemoveMentions(rest)
  {
    OpenerSplit(inner, rest);
    OpenerBeforeBracketKept(inner, rest);
    AtSignKept(inner + rest);
    LeadingMentionRemoved(inner, rest);
    OpenerEq(RemoveMentions("<@" + inner + rest), RemoveMentions(['@'] + (inner + rest)), RemoveMentions(inner + rest), RemoveMentions(rest));
  }

  /** Text without `<` followed by `>` still has no `<`. */
  lemma CloseNoBracket(b: string)
    requires NoBracket(b)
    ensures NoBracket(b + ">")
  {
    forall i | 0 <= i < |b + ">"| ensures (b + ">")[i] != '<' {
      if i < |b| {
        assert (b + ">")[i] == b[i];
      }
    }
  }

  /** An id followed by `>` has no `<`. */
  lemma IdCloseNoBracket(b: string)
    requires IdText(b)
    ensures NoBracket(b + ">")
  {
    assert NoBracket(b);
    CloseNoBracket(b);
  }

  /**
   * Regrouping `<@` before a token's id and closing bracket; a sequence
   * identity that keeps the verifier from unfolding the scanner in the
   * proofs that use it.
   */
  lemma OpenerRegroup(b: string)
    ensures "<@" + (b + ">") == "<@" + b + ">"
  {
  }

  /** The removal pass on `<@<@a>b>`: the inner match goes, `<@b>` is left. */
  lemma NestedTokenPass(a: string, b: string)
    requires IdText(a) && IdText(b)
    ensures RemoveMentions("<@" + ("<@" + a + ">") + (b + ">")) == "<@" + b + ">"
  {
    MentionOf(a);
    NestedMentionRemoved("<@" + a + ">", b + ">");
    IdCloseNoBracket(b);
    NoBracketUnchanged(b + ">");
    OpenerRegroup(b);
    AfterPrefixEq(RemoveMentions("<@" + ("<@" + a + ">") + (b + ">")), "<@", RemoveMentions(b + ">"), b + ">", "<@" + b + ">");
  }

  /**
   * A single pass does not revisit its output: removing the match `<@a>`
   * from `<@<@a>b>` joins its neighbours into the new token `<@b>`, which
   * stays.
   */
  lemma NestedTokenJoins(a: string, b: string)
    requires IdText(a) && IdText(b)
    ensures StripMentions("<@" + ("<@" + a + ">") + (b + ">")) == "<@" + b + ">"
  {
    NestedTokenPass(a, b);
    TrimTrimmed("<@" + b + ">");
  }

  /** A text that is one match is removed completely. */
  lemma LoneMentionRemoved(m: string)
    requires IsMention(m)
    ensures StripMentions(m) == ""
  {
    LeadingMentionRemoved(m, "");
    assert m + "" == m;
  }

  /** `<@<@A>B>` becomes `<@B>` (both texts are written in pieces). */
  lemma SinglePassExample()
    ensures StripMentions("<@" + ("<@" + "A" + ">") + ("B" + ">")) == "<@" + "B" + ">"
  {
    NestedTokenJoins("A", "B");
  }

  /** The token `<@B>` that `SinglePassExample` leaves behind is removed by a second pass. */
  lemma SecondPassExample()
    ensures StripMentions("<@" + "B" + ">") == ""
  {
    MentionOf("B");
    LoneMentionRemoved("<@" + "B" + ">");
  }

  /** A text whose stripped text is stripped again to something else shows that stripping is not idempotent. */
  lemma NotIdempotentWitness(s: string, t: string)
    requires StripMentions(s) == t && StripMentions(t) == "" && t != ""
    ensures exists x :: StripMentions(StripMentions(x)) != StripMentions(x)
  {
    assert StripMentions(StripMentions(s)) != StripMentions(s);
  }

  /** So stripping is not idempotent. */
  lemma StripNotIdempotent()
    ensures exists s :: StripMentions(StripMentions(s)) != StripMentions(s)
  {
    SinglePassExample();
    SecondPassExample();
    assert |"<@" + "B" + ">"| == 4;
    NotIdempotentWitness("<@" + ("<@" + "A" + ">") + ("B" + ">"), "<@" + "B" + ">");
  }

  /** A `<@` not followed by an id character starts no match, and text without `<` after it is kept. */
  lemma NoIdKept(rest: string)
    requires NoBracket(rest) && (rest == [] || !IsIdChar(rest[0]))
    ensures RemoveMentions("<@" + rest) == "<@" + rest
  {
    assert MentionAt("<@" + rest) == 0 by {
      assert ("<@" + rest)[2..] == rest;
    }
    UnmatchedOpenerKept(rest);
  }

  /** A text the removal pass leaves alone and that has no whitespace at either end is sent as it is. */
  lemma StripUnchanged(t: string)
    requires RemoveMentions(t) == t && Trimmed(t)
    ensures StripMentions(t) == t
  {
    TrimTrimmed(t);
  }

  /** A `<@` without an id after it, and text without `<` or trailing whitespace: stripping changes nothing. */
  lemma OpenerWithoutIdKept(rest: string)
    requires NoBracket(rest) && (rest == [] || !IsIdChar(rest[0]))
    requires rest == [] || !IsSpace(rest[|rest| - 1])
    ensures StripMentions("<@" + rest) == "<@" + rest
  {
    var t := "<@" + rest;
    NoIdKept(rest);
    assert Trimmed(t) by {
      assert t[0] == '<';
      assert t[|t| - 1] == if rest == [] then '@' else rest[|rest| - 1];
    }
    StripUnchanged(t);
  }

  /** `<@>` (written in pieces) has no id character, so it is not a match and is kept. */
  lemma EmptyIdKept()
    ensures StripMentions("<@" + ">") == "<@" + ">"
  {
    OpenerWithoutIdKept(">");
  }

  /**
   * `<@` followed by text without `<` is copied when no match starts at
   * its `<`: nothing after it can start one either.
   */
  lemma UnmatchedOpenerKept(rest: string)
    requires NoBracket(rest) && MentionAt("<@" + rest) == 0
    ensures RemoveMentions("<@" + rest) == "<@" + rest
  {
    var t := ['@'] + rest;
    assert "<@" + rest == ['<'] + t;
    LeadingCharKept('<', t);
    assert NoBracket(t) by {
      forall i | 0 <= i < |t| ensures t[i] != '<' {
        if i > 0 {
          assert t[i] == rest[i - 1];
        }
      }
    }
    NoBracketUnchanged(t);
    AfterPrefixEq(RemoveMentions(['<'] + t), ['<'], RemoveMentions(t), t, "<@" + rest);
  }

  /**
   * A token whose id has a character outside `[A-Z0-9]` (and no `<` or
   * `>`) starts no match: the run of id characters ends before the
   * closing `>`.
   */
  lemma NonIdTokenNoMatch(id: string)
    requires NoBracket(id) && forall i :: 0 <= i < |id| ==> id[i] != '>'
    requires exists i :: 0 <= i < |id| && !IsIdChar(id[i])
    ensures MentionAt("<@" + (id + ">")) == 0
  {
    var s := "<@" + (id + ">");
    var u := id + ">";
    assert s[2..] == u;
    var k := IdRun(u);
    var w :| 0 <= w < |id| && !IsIdChar(id[w]);
    assert u[w] == id[w];
    assert k <= w;
    assert s[2 + k] == id[k];
  }

  /** `<@` and text without `<` that ends in `>`: when no match starts at the `<`, stripping changes nothing. */
  lemma UnmatchedTokenKept(rest: string)
    requires NoBracket(rest) && MentionAt("<@" + rest) == 0
    requires |rest| > 0 && rest[|rest| - 1] == '>'
    ensures StripMentions("<@" + rest) == "<@" + rest
  {
    var t := "<@" + rest;
    UnmatchedOpenerKept(rest);
    assert Trimmed(t) by {
      assert t[0] == '<' && t[|t| - 1] == rest[|rest| - 1];
    }
    StripUnchanged(t);
  }

  /** `NonIdTokenKept` with the token grouped as `<@` and the rest. */
  lemma NonIdTokenKeptGrouped(id: string)
    requires NoBracket(id) && forall i :: 0 <= i < |id| ==> id[i] != '>'
    requires exists i :: 0 <= i < |id| && !IsIdChar(id[i])
    ensures StripMentions("<@" + (id + ">")) == "<@" + (id + ">")
  {
    CloseNoBracket(id);
    NonIdTokenNoMatch(id);
    UnmatchedTokenKept(id + ">");
  }

  /**
   * A token whose id has a character outside `[A-Z0-9]` is not a match,
   * since ids are upper-case letters and digits, so it is kept: `<@u1>`,
   * `<@U1a>` and `<@U 1>`, say.
   */
  lemma NonIdTokenKept(id: string)
    requires NoBracket(id) && forall i :: 0 <= i < |id| ==> id[i] != '>'
    requires exists i :: 0 <= i < |id| && !IsIdChar(id[i])
    ensures StripMentions("<@" + id + ">") == "<@" + id + ">"
  {
    NonIdTokenKeptGrouped(id);
    OpenerRegroup(id);
  }

  /** The body of a backend reply: parseable JSON with a `response` string, or not. */
  datatype Body = Malformed | Json(response: string)

  /** What the backend call produced: a transport error, or a status and a body. */
  datatype BackendReply = NetworkError | HttpReply(status: int, body: Body)

  /**
   * `fetchBotResponse`: the backend's `response` field on an ok status and
   * a parseable body, the fixed fallback on every failure. It never throws.
   */
  function FetchBotResponse(reply: BackendReply): (r: string)
    ensures reply.HttpReply? && OkStatus(reply.status) && reply.body.Json? ==> r == reply.body.response
    ensures reply.NetworkError? || !OkStatus(reply.status) || reply.body.Malformed? ==> r == Fallback
  {
    match reply
    case NetworkError => Fallback
    case HttpReply(status, body) =>
      if !OkStatus(status) then Fallback
      else match body
        case Malformed => Fallback
        case Json(response) => response
  }

  /** The prefix that addresses a reply to `user`. */
  function Addressee(user: string): string {
    "<@" + user + ">, "
  }

  /** The reply text `<@user>, response`: the addressee, then the response unchanged. */
  function ComposeReply(user: string, response: string): (r: string)
    ensures |r| == |user| + 5 + |response|
    ensures r[..|user| + 5] == Addressee(user) && r[|user| + 5..] == response
  {
    Addressee(user) + response
  }

  /** An `app_mention` event: its text and the mentioning user's id. */
  datatype MentionEvent = MentionEvent(text: string, user: string)

  /** What one event leads to: the text sent to the backend, and the texts passed to `say`, in order. */
  datatype MentionOutcome = MentionOutcome(request: string, said: seq<string>)

  /**
   * The `app_mention` handler. `reply` is what the backend call produces and
   * `sayFails` whether posting the first reply throws; only `say` can throw
   * inside the handler's `try`, since `fetchBotResponse` never does, and
   * then the handler posts the fixed apology instead.
   */
  function HandleMention(event: MentionEvent, reply: BackendReply, sayFails: bool): (r: MentionOutcome)
    ensures r.request == StripMentions(event.text)
    ensures |r.said| == if sayFails then 2 else 1
    ensures r.said[0] == ComposeReply(event.user, FetchBotResponse(reply))
    ensures sayFails ==> r.said[1] == ComposeReply(event.user, HandlerApology)
  {
    var text := StripMentions(event.text);
    var response := FetchBotResponse(reply);
    var first := Addressee(event.user) + response;
    MentionOutcome(text, if sayFails then [first, Addressee(event.user) + HandlerApology] else [first])
  }

  /** Every text the handler posts is addressed to the mentioning user. */
  lemma RepliesAddressUser(event: MentionEvent, reply: BackendReply, sayFails: bool)
    ensures forall m :: m in HandleMention(event, reply, sayFails).said ==>
      |m| >= |event.user| + 5 && m[..|event.user| + 5] == Addressee(event.user)
  {
  }
}
