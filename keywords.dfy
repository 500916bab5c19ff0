/** Ordered keyword tables searched first-match-wins: the name of the first
    row with a keyword occurring in the text, or a default. */
module Keywords {
  import opened Text

  /** One row of a table: a name and the keywords that select it. */
  datatype Rule = Rule(name: string, keywords: seq<string>)

  /** Python's `any(k in text for k in keywords)`. */
  predicate AnyIn(keywords: seq<string>, text: string)
    ensures AnyIn(keywords, text) <==> exists k :: 0 <= k < |keywords| && Contains(text, keywords[k])
  {
    |keywords| > 0 && (Contains(text, keywords[0]) || AnyIn(keywords[1..], text))
  }

  /** A row with one keyword is hit when that keyword occurs. */
  lemma AnyInOne(keyword: string, text: string)
    ensures AnyIn([keyword], text) == Contains(text, keyword)
  {
    assert [keyword][1..] == [];
  }

  /** No keyword occurs when each lacks a character that `text` lacks
      (`missing[k]` for keyword `k`). */
  lemma NoneIn(keywords: seq<string>, text: string, missing: seq<char>)
    requires |missing| == |keywords|
    requires forall k :: 0 <= k < |keywords| ==> missing[k] in keywords[k] && missing[k] !in text
    ensures !AnyIn(keywords, text)
  {
    forall k | 0 <= k < |keywords| ensures !Contains(text, keywords[k]) {
      MissingChar(text, keywords[k], missing[k]);
    }
  }

  /** Row `i` is the first row whose keywords occur in `text`. */
  predicate FirstRow(rules: seq<Rule>, text: string, i: int) {
    && 0 <= i < |rules|
    && AnyIn(rules[i].keywords, text)
    && forall k :: 0 <= k < i ==> !AnyIn(rules[k].keywords, text)
  }

  /** No row's keywords occur in `text`. */
  predicate NoRow(rules: seq<Rule>, text: string) {
    forall k :: 0 <= k < |rules| ==> !AnyIn(rules[k].keywords, text)
  }

  /** The early-return loop over the table: the name of the first row hit,
      or `default` when no row is. The result is always the default or one of
      the table's names. */
  function FirstHit(rules: seq<Rule>, text: string, default: string): (r: string)
    ensures r == default || exists i :: 0 <= i < |rules| && r == rules[i].name
  {
    if rules == [] then default
    else if AnyIn(rules[0].keywords, text) then rules[0].name
    else
      var r := FirstHit(rules[1..], text, default);
      assert r != default ==> exists i :: 0 <= i < |rules[1..]| && r == rules[1..][i].name;
      r
  }

  /** `FirstHit` gives the default when no row is hit, and otherwise the name
      of the first row hit. */
  lemma {:induction false} FirstHitSpec(rules: seq<Rule>, text: string, default: string)
    ensures NoRow(rules, text) ==> FirstHit(rules, text, default) == default
    ensures !NoRow(rules, text) ==> exists i :: FirstRow(rules, text, i) && FirstHit(rules, text, default) == rules[i].name
  {
    if rules == [] {
    } else if AnyIn(rules[0].keywords, text) {
      assert FirstRow(rules, text, 0);
    } else {
      var tail := rules[1..];
      FirstHitSpec(tail, text, default);
      if NoRow(rules, text) {
        assert NoRow(tail, text) by {
          forall k | 0 <= k < |tail| ensures !AnyIn(tail[k].keywords, text) {
            assert tail[k] == rules[k + 1];
          }
        }
      } else {
        assert !NoRow(tail, text) by {
          var k :| 0 <= k < |rules| && AnyIn(rules[k].keywords, text);
          assert tail[k - 1] == rules[k];
        }
        var i :| FirstRow(tail, text, i) && FirstHit(tail, text, default) == tail[i].name;
        assert FirstRow(rules, text, i + 1) by {
          forall k | 0 <= k < i + 1 ensures !AnyIn(rules[k].keywords, text) {
            if k > 0 {
              assert rules[k] == tail[k - 1];
            }
          }
        }
      }
    }
  }

  /** The first row hit is unique. */
  lemma FirstRowUnique(rules: seq<Rule>, text: string, i: int, j: int)
    requires FirstRow(rules, text, i) && FirstRow(rules, text, j)
    ensures i == j
  {
  }

  /** `FirstHit` is the name of the first row hit, whichever row that is. */
  lemma FirstHitAt(rules: seq<Rule>, text: string, default: string, i: int)
    requires FirstRow(rules, text, i)
    ensures FirstHit(rules, text, default) == rules[i].name
  {
    FirstHitSpec(rules, text, default);
    var j :| FirstRow(rules, text, j) && FirstHit(rules, text, default) == rules[j].name;
    FirstRowUnique(rules, text, i, j);
  }

  /** With no row hit, `FirstHit` is the default. */
  lemma FirstHitNone(rules: seq<Rule>, text: string, default: string)
    requires NoRow(rules, text)
    ensures FirstHit(rules, text, default) == default
  {
    FirstHitSpec(rules, text, default);
  }
}
