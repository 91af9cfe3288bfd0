/** The string logic of generate_response: the prompt handed to the model,
    the "food" hint, the canned reply when the model is not ready and the
    two lines each exchange adds to the chat history. */
module ChatPrompt {
  import opened Text

  /** The fixed role-play instructions that open every prompt. */
  const Persona: string :=
    "You are Miki, a cute mew-human hybrid cat. "
    + "RULES: "
    + "1. ONLY respond to the user's message. "
    + "2. NEVER create new messages for the user. "
    + "3. NEVER write 'You:' or pretend to be the user. "
    + "4. NEVER continue the conversation script. "
    + "5. ONLY write ONE reply as Miki.\n"

  const FoodHint: string := " Your favorite food is Pizza."

  const SleepyReply: string := "Mew~ I'm sleeeeepy! "

  /** How many characters of the user's message the canned reply echoes. */
  const EchoLength: nat := 10

  const UserTag: string := "You: "

  const MikiTag: string := "Miki: "

  /** The user's message as the prompt quotes it, followed by the cue for Miki's turn. */
  function MessageBlock(msg: string): string {
    "User message: " + msg + "\nMiki:"
  }

  /** `"food" in msg.lower()` */
  predicate MentionsFood(msg: string) {
    Contains(Lower(msg), "food")
  }

  /** The prompt generate_response builds for `msg`. */
  function Prompt(msg: string): (p: string)
    ensures StartsWith(p, Persona)
    ensures |p| == |Persona| + |MessageBlock(msg)| + (if MentionsFood(msg) then |FoodHint| else 0)
  {
    var p := Persona + MessageBlock(msg) + (if MentionsFood(msg) then FoodHint else "");
    assert p[..|Persona|] == Persona;
    p
  }

  /** Right after the persona the prompt quotes the message verbatim between
      "User message: " and "\nMiki:". */
  lemma PromptQuotesMessage(msg: string)
    ensures OccursAt(Prompt(msg), "User message: " + msg + "\nMiki:", |Persona|)
  {
    var p := Prompt(msg);
    var b := MessageBlock(msg);
    assert p == Persona + b + (if MentionsFood(msg) then FoodHint else "");
    assert p[|Persona|..|Persona| + |b|] == b;
  }

  /** The prompt ends with the food hint exactly when the message mentions food
      in any letter case; otherwise it ends with the "Miki:" cue. */
  lemma {:induction false} FoodHintIff(msg: string)
    ensures EndsWith(Prompt(msg), FoodHint) <==> MentionsFood(msg)
    ensures !MentionsFood(msg) ==> EndsWith(Prompt(msg), "\nMiki:")
  {
    var p := Prompt(msg);
    var b := Persona + MessageBlock(msg);
    if MentionsFood(msg) {
      assert p == b + FoodHint;
      assert p[|p| - |FoodHint|..] == FoodHint;
    } else {
      assert p == Persona + "User message: " + msg + "\nMiki:";
      assert p[|p| - 1] == ':';
      assert FoodHint[|FoodHint| - 1] == '.';
      assert p[|p| - 6..] == "\nMiki:";
    }
  }

  /** The food test ignores letter case. */
  lemma MentionsFoodIgnoresCase(msg: string)
    ensures MentionsFood(Lower(msg)) == MentionsFood(msg)
  {
    LowerIdempotent(msg);
  }

  /** A message mentions food whenever "food", in any letter case, occurs anywhere in it. */
  lemma FoodAnywhere(pre: string, word: string, post: string)
    requires Lower(word) == "food"
    ensures MentionsFood(pre + word + post)
  {
    var m := pre + word + post;
    var l := Lower(m);
    forall k | 0 <= k < 4 ensures l[|pre| + k] == "food"[k] {
      assert m[|pre| + k] == word[k];
    }
    assert l[|pre|..|pre| + 4] == "food";
    assert OccursAt(l, "food", |pre|);
  }

  /** The sample message "I like food" mentions food. */
  lemma FoodExample()
    ensures MentionsFood("I like food")
  {
    FoodAnywhere("I like ", "food", "");
    assert "I like " + "food" + "" == "I like food";
  }

  /** Upper-case letters still count as food. */
  lemma UpperFoodExample()
    ensures MentionsFood("FOOD")
  {
    FoodAnywhere("", "FOOD", "");
    assert "" + "FOOD" + "" == "FOOD";
  }

  /** The sample message "hello" does not mention food. */
  lemma NoFoodExample()
    ensures !MentionsFood("hello")
  {
    var l := Lower("hello");
    assert l[0] == 'h' && l[1] == 'e';
    assert !exists i :: OccursAt(l, "food", i);
  }

  /** The reply used when the model is not ready: the sleepy line followed by
      the first ten characters of the message (msg[:10]). */
  function Fallback(msg: string): (r: string)
    ensures StartsWith(r, SleepyReply)
    ensures |r| == |SleepyReply| + (if |msg| < EchoLength then |msg| else EchoLength)
    ensures StartsWith(msg, r[|SleepyReply|..])
    ensures |msg| <= EchoLength ==> r == SleepyReply + msg
  {
    var r := SleepyReply + Take(msg, EchoLength);
    assert r[..|SleepyReply|] == SleepyReply;
    assert r[|SleepyReply|..] == Take(msg, EchoLength);
    r
  }

  /** The reply of one exchange: the canned line when the model is not ready,
      otherwise `modelReply`, what the model answered to Prompt(msg) (sampled,
      so it is a parameter of each exchange). */
  function Respond(msg: string, ready: bool, modelReply: string): (r: string)
    ensures !ready ==> r == Fallback(msg) && StartsWith(r, SleepyReply) && |r| <= |SleepyReply| + EchoLength
    ensures ready ==> r == modelReply
  {
    if !ready then Fallback(msg) else modelReply
  }

  /** The two history lines one exchange appends, user first. */
  function Exchange(msg: string, response: string): (h: seq<string>)
    ensures |h| == 2 && IsUserLine(h[0]) && IsMikiLine(h[1])
    ensures h[0][|UserTag|..] == msg && h[1][|MikiTag|..] == response
  {
    var u := UserTag + msg;
    var m := MikiTag + response;
    assert u[..|UserTag|] == UserTag && u[|UserTag|..] == msg;
    assert m[..|MikiTag|] == MikiTag && m[|MikiTag|..] == response;
    [u, m]
  }

  predicate IsUserLine(line: string) { StartsWith(line, UserTag) }

  predicate IsMikiLine(line: string) { StartsWith(line, MikiTag) }

  /** The chat history alternates user and Miki lines, starting with a user line
      and ending with a Miki line. */
  predicate WellFormedHistory(h: seq<string>) {
    |h| % 2 == 0
    && forall k :: 0 <= k < |h| ==> (if k % 2 == 0 then IsUserLine(h[k]) else IsMikiLine(h[k]))
  }

  /** Appending an exchange keeps the history alternating and adds exactly one
      user line and one Miki line. */
  lemma {:induction false} ExchangeKeepsHistory(h: seq<string>, msg: string, response: string)
    requires WellFormedHistory(h)
    ensures WellFormedHistory(h + Exchange(msg, response))
    ensures |h + Exchange(msg, response)| == |h| + 2
  {
    var e := Exchange(msg, response);
    var h' := h + e;
    forall k | 0 <= k < |h'|
      ensures if k % 2 == 0 then IsUserLine(h'[k]) else IsMikiLine(h'[k])
    {
      if k < |h| {
        assert h'[k] == h[k];
      } else if k == |h| {
        assert h'[k] == e[0];
      } else {
        assert h'[k] == e[1];
      }
    }
  }
}
