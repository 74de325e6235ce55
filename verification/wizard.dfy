/**
 * The recommendation wizard: three question panels whose answers are
 * collected in order, then a keyword decision that picks a catalog product
 * and stages it for the "buy" button.
 */
module Wizard {
  import opened Wrappers
  import opened Text
  import opened Products

  // ---- the decision ----

  /** Evening and occasion keywords: product "4". */
  const Night: string := "ليل"
  const Occasion: string := "مناسبة"
  /** Wood and warmth keywords: product "2". */
  const Woods: string := "أخشاب"
  const Warmth: string := "دفء"
  /** Flower and romance keywords: product "3". */
  const Flowers: string := "زهور"
  const Romance: string := "رومانسية"
  /** Freshness and fruit keywords: product "1". */
  const Freshness: string := "انتعاش"
  const Fruits: string := "فواكه"

  /** The id tried when nothing matches and the catalog has no keys. */
  const DefaultId: string := "1"

  /** The text the keywords are looked for in: the answers joined by "|", lower-cased. */
  function AnswerText(answers: seq<string>): string {
    Lower(Join(answers, "|"))
  }

  /**
   * `Object.keys(products)[0] || '1'`: the first catalog key, unless there is
   * none or it is the empty string, which `||` treats as false.
   */
  function Fallback(keys: seq<string>): (pid: string)
    ensures pid != ""
    ensures pid in keys || pid == DefaultId
    ensures FirstKey(keys).Some? && FirstKey(keys).value != "" ==> pid == FirstKey(keys).value
    ensures FirstKey(keys).None? || FirstKey(keys).value == "" ==> pid == DefaultId
  {
    match FirstKey(keys)
    case Some(k) => if k != "" then k else DefaultId
    case None => DefaultId
  }

  /** A card with an empty `data-id` listed first, and no numeric id, still falls back to "1". */
  lemma EmptyFirstKeyFallsBack(rest: seq<string>)
    requires !HasIndexKey([""] + rest)
    ensures Fallback([""] + rest) == DefaultId
  {
    assert ([""] + rest)[0] == "";
  }

  /**
   * `wizard.decideProduct()`: four keyword tests in a fixed order, then the
   * fallback; this chain is the priority table read top-down, so the first
   * group with a keyword in the answers decides.
   */
  function DecideProduct(answers: seq<string>, keys: seq<string>): (pid: string)
    ensures pid == DecideByRules(answers, keys)
  {
    var text := AnswerText(answers);
    assert Rules[0].words == [Night, Occasion];
    assert Rules[1].words == [Woods, Warmth];
    assert Rules[2].words == [Flowers, Romance];
    assert Rules[3].words == [Freshness, Fruits];
    MatchesPair(text, Rules[0]);
    MatchesPair(text, Rules[1]);
    MatchesPair(text, Rules[2]);
    MatchesPair(text, Rules[3]);
    if Contains(text, Night) || Contains(text, Occasion) then "4"
    else if Contains(text, Woods) || Contains(text, Warmth) then "2"
    else if Contains(text, Flowers) || Contains(text, Romance) then "3"
    else if Contains(text, Freshness) || Contains(text, Fruits) then "1"
    else Fallback(keys)
  }

  /** One keyword group and the product id it selects. */
  datatype Rule = Rule(words: seq<string>, pid: string)

  /** The keyword groups as a priority table, highest priority first. */
  const Rules: seq<Rule> := [
    Rule([Night, Occasion], "4"),
    Rule([Woods, Warmth], "2"),
    Rule([Flowers, Romance], "3"),
    Rule([Freshness, Fruits], "1")
  ]

  predicate Matches(text: string, rule: Rule) {
    exists j :: 0 <= j < |rule.words| && Contains(text, rule.words[j])
  }

  /** The position of the first rule that matches `text`, if any. */
  function FirstMatch(rules: seq<Rule>, text: string): (r: Option<nat>)
    ensures r.Some? ==> r.value < |rules| && Matches(text, rules[r.value])
    ensures r.Some? ==> forall k :: 0 <= k < r.value ==> !Matches(text, rules[k])
    ensures r.None? ==> forall k :: 0 <= k < |rules| ==> !Matches(text, rules[k])
  {
    if |rules| == 0 then None
    else if Matches(text, rules[0]) then Some(0)
    else match FirstMatch(rules[1..], text)
      case None => None
      case Some(k) => Some(k + 1)
  }

  /** The decision read off the priority table. */
  function DecideByRules(answers: seq<string>, keys: seq<string>): string {
    match FirstMatch(Rules, AnswerText(answers))
    case Some(k) => Rules[k].pid
    case None => Fallback(keys)
  }

  /** A two-word group matches when either of its words occurs. */
  lemma MatchesPair(text: string, rule: Rule)
    requires |rule.words| == 2
    ensures Matches(text, rule) <==> Contains(text, rule.words[0]) || Contains(text, rule.words[1])
  {
    if Contains(text, rule.words[0]) {
      assert 0 < |rule.words| && Contains(text, rule.words[0]);
    }
    if Contains(text, rule.words[1]) {
      assert 1 < |rule.words| && Contains(text, rule.words[1]);
    }
  }

  /** No keyword has a Latin letter, so lower-casing the answers never changes a test. */
  lemma KeywordsHaveNoLatin(k: nat, j: nat)
    requires k < |Rules| && j < |Rules[k].words|
    ensures forall n :: 0 <= n < |Rules[k].words[j]| ==> !IsAsciiLetter(Rules[k].words[j][n])
  {
  }

  /**
   * A keyword of group `k` in any one answer means the decision comes from
   * group `k` or from a group listed before it, whatever the other answers say.
   */
  lemma AnswerKeywordDecides(answers: seq<string>, keys: seq<string>, i: nat, k: nat, j: nat)
    requires i < |answers| && k < |Rules| && j < |Rules[k].words|
    requires Contains(answers[i], Rules[k].words[j])
    ensures var m := FirstMatch(Rules, AnswerText(answers));
            && m.Some? && m.value <= k
            && DecideProduct(answers, keys) == Rules[m.value].pid
  {
    var w := Rules[k].words[j];
    var joined := Join(answers, "|");
    ContainsInJoin(answers, "|", i, w);
    KeywordsHaveNoLatin(k, j);
    LowerKeepsOccurrence(joined, w);
    assert Matches(AnswerText(answers), Rules[k]);
  }

  /**
   * An evening or occasion keyword in any answer always yields product "4",
   * even when other answers name woods, flowers or fruit.
   */
  lemma EveningWins(answers: seq<string>, keys: seq<string>, i: nat)
    requires i < |answers|
    requires Contains(answers[i], Night) || Contains(answers[i], Occasion)
    ensures DecideProduct(answers, keys) == "4"
  {
    var j := if Contains(answers[i], Night) then 0 else 1;
    assert Rules[0].words[j] == [Night, Occasion][j];
    AnswerKeywordDecides(answers, keys, i, 0, j);
  }

  /**
   * An evening answer first and wood and flower answers after it still
   * recommend product "4".
   */
  lemma EveningBeforeWoodsAndFlowers(keys: seq<string>)
    ensures DecideProduct(["سهرة ليلية", "رائحة أخشاب", "زهور"], keys) == "4"
  {
    var answers := ["سهرة ليلية", "رائحة أخشاب", "زهور"];
    assert answers[0][5..8] == Night;
    assert OccursAt(answers[0], Night, 5);
    EveningWins(answers, keys, 0);
  }

  /** With no keyword anywhere, the first catalog key is recommended, or "1" without a catalog. */
  lemma NoKeywordFallsBack(answers: seq<string>, keys: seq<string>)
    requires forall k :: 0 <= k < |Rules| ==> !Matches(AnswerText(answers), Rules[k])
    ensures DecideProduct(answers, keys) == Fallback(keys)
  {
  }

  /** The answer "occasions", in the plural. */
  const PluralOccasions: string := "المناسبات"

  /** A keyword with a character the answer lacks is not found in the answer text. */
  lemma AnswerLacks(answer: string, w: string, k: nat)
    requires k < |w| && w[k] !in answer
    requires forall n :: 0 <= n < |w| ==> !IsAsciiLetter(w[n])
    ensures !Contains(AnswerText([answer]), w)
  {
    MissingCharNotContained(answer, w, k);
    LowerKeepsOccurrence(answer, w);
  }

  /** An answer lacking one character of each word of a group does not match that group. */
  lemma AnswerMissesGroup(answer: string, k: nat, i0: nat, i1: nat)
    requires k < |Rules| && |Rules[k].words| == 2
    requires i0 < |Rules[k].words[0]| && Rules[k].words[0][i0] !in answer
    requires i1 < |Rules[k].words[1]| && Rules[k].words[1][i1] !in answer
    ensures !Matches(AnswerText([answer]), Rules[k])
  {
    KeywordsHaveNoLatin(k, 0);
    KeywordsHaveNoLatin(k, 1);
    AnswerLacks(answer, Rules[k].words[0], i0);
    AnswerLacks(answer, Rules[k].words[1], i1);
    MatchesPair(AnswerText([answer]), Rules[k]);
  }

  /** The answer "occasions" (المناسبات), in the plural, matches no keyword group. */
  lemma PluralMatchesNoGroup(answer: string)
    requires answer == PluralOccasions
    ensures forall k :: 0 <= k < |Rules| ==> !Matches(AnswerText([answer]), Rules[k])
  {
    forall k | 0 <= k < |Rules|
      ensures !Matches(AnswerText([answer]), Rules[k])
    {
      if k == 0 {
        AnswerMissesGroup(answer, 0, 1, 5);
      } else if k == 1 {
        AnswerMissesGroup(answer, 1, 0, 0);
      } else if k == 2 {
        AnswerMissesGroup(answer, 2, 0, 0);
      } else {
        AnswerMissesGroup(answer, 3, 3, 0);
      }
    }
  }

  /**
   * The singular keyword is not found in the plural: the answer "occasions"
   * (المناسبات) holds neither evening keyword, and no other keyword either,
   * so it is not sent to product "4" but to the fallback.
   */
  lemma PluralOccasionFallsBack(answer: string, keys: seq<string>)
    requires answer == PluralOccasions
    ensures !Contains(AnswerText([answer]), Occasion)
    ensures !Contains(AnswerText([answer]), Night)
    ensures DecideProduct([answer], keys) == Fallback(keys)
  {
    KeywordsHaveNoLatin(0, 0);
    KeywordsHaveNoLatin(0, 1);
    AnswerLacks(answer, Occasion, 5);
    AnswerLacks(answer, Night, 1);
    PluralMatchesNoGroup(answer);
    NoKeywordFallsBack([answer], keys);
  }

  // ---- the panels ----

  /** Which wizard panel is shown. */
  datatype Panel = Question(step: int) | ResultShown | NoPanel

  /** The wizard object: collected answers, shown panel, staged product. */
  datatype State = State(answers: seq<string>, panel: Panel, lastProduct: Option<Product>)

  /** The number of question panels. */
  const LastStep: int := 3

  /**
   * The wizard's opening state: nothing collected or staged, and question 1
   * shown. The script activates no panel at load (script/script.js:293-295 only
   * refresh the badge and the table); question 1 being shown is taken from
   * the page's markup.
   */
  const Start: State := State([], Question(1), None)

  /**
   * An answer button on panel `step` is clicked: the trimmed answer is
   * appended; the next question is shown while there is one, otherwise the
   * decided product is looked up, and, if a card has that id, staged and
   * shown; with no such card nothing is shown and nothing is staged.
   */
  function OnAnswer(w: State, c: Catalog, step: int, value: string): (w': State)
    ensures w'.answers == w.answers + [Trim(value)]
    ensures step + 1 <= LastStep ==> w'.panel == Question(step + 1) && w'.lastProduct == w.lastProduct
    ensures step + 1 > LastStep ==>
              var pid := DecideProduct(w'.answers, c.keys);
              && (pid in c.entries ==> w'.panel == ResultShown && w'.lastProduct == Some(c.entries[pid]))
              && (pid !in c.entries ==> w'.panel == NoPanel && w'.lastProduct == w.lastProduct)
  {
    var answers := w.answers + [Trim(value)];
    if step + 1 <= LastStep then State(answers, Question(step + 1), w.lastProduct)
    else match Lookup(c, DecideProduct(answers, c.keys))
      case Some(p) => State(answers, ResultShown, Some(p))
      case None => State(answers, NoPanel, w.lastProduct)
  }

  /**
   * Answering the three panels in order from the start shows questions 2 and
   * 3, then the result for the three trimmed answers.
   */
  lemma ThreeAnswers(c: Catalog, a1: string, a2: string, a3: string)
    ensures var w1 := OnAnswer(Start, c, 1, a1);
            var w2 := OnAnswer(w1, c, 2, a2);
            var w3 := OnAnswer(w2, c, 3, a3);
            var pid := DecideProduct([Trim(a1), Trim(a2), Trim(a3)], c.keys);
            && w1.panel == Question(2) && w2.panel == Question(3)
            && w3.answers == [Trim(a1), Trim(a2), Trim(a3)]
            && (pid in c.entries ==> w3.panel == ResultShown && w3.lastProduct == Some(c.entries[pid]))
            && (pid !in c.entries ==> w3.panel == NoPanel && w3.lastProduct.None?)
  {
    var w1 := OnAnswer(Start, c, 1, a1);
    var w2 := OnAnswer(w1, c, 2, a2);
    assert w2.answers == [Trim(a1), Trim(a2)];
  }
}
