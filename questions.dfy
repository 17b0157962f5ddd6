/** The question bank and the random pick of a quiz from it. */
module Questions {
  import opened Runtime

  /** One quiz question: what to ask and the canonical commands accepted as an answer. */
  datatype Question = Question(id: string, prompt: string, expected: seq<string>, applyAfter: Option<bool>)

  function Q(id: string, prompt: string, expected: seq<string>): Question
  {
    Question(id, prompt, expected, None)
  }

  /** The nineteen questions, in the order they are listed. */
  const QuestionBank: seq<Question> := [
    Q("del-line", "Delete the current line", ["dd", "1dd"]),
    Q("yank-paste", "Duplicate the current line (yank & paste)", ["yy p", "yyp"]),
    Q("del-word", "Delete the next word starting at cursor", ["dw"]),
    Q("change-word", "Change the word under the cursor", ["cw"]),
    Q("move-top", "Move to the top of the file", ["gg"]),
    Q("move-bottom", "Move to the bottom of the file", ["G"]),
    Q("move-begin", "Move to the beginning of the current line", ["0"]),
    Q("move-end", "Move to the end of the current line", ["$"]),
    Q("word-forward", "Jump forward one word", ["w"]),
    Q("word-backward", "Jump backward one word", ["b"]),
    Q("delete-char", "Delete the character under the cursor", ["x"]),
    Q("move-left", "Move cursor one character to the left", ["h"]),
    Q("move-down", "Move cursor one line down", ["j"]),
    Q("move-up", "Move cursor one line up", ["k"]),
    Q("move-right", "Move cursor one character to the right", ["l"]),
    Q("del-2-lines", "Delete 2 consecutive lines", ["2dd"]),
    Q("del-3-lines", "Delete 3 consecutive lines", ["3dd"]),
    Q("del-5-lines", "Delete 5 consecutive lines", ["5dd"]),
    Q("del-10-lines", "Delete 10 consecutive lines", ["10dd"])
  ]

  /** The number of questions picked when no count is given. */
  const DefaultPickCount := 10

  predicate DistinctIds(qs: seq<Question>)
  {
    forall i, j :: 0 <= i < j < |qs| ==> qs[i].id != qs[j].id
  }

  /** Entries `a..b` of `qs` and entries `c..d` have no id in common (overlapping ranges compare distinct entries only). */
  predicate IdsApart(qs: seq<Question>, a: nat, b: nat, c: nat, d: nat)
  {
    forall i, j :: a <= i < b && c <= j < d && i < j < |qs| ==> qs[i].id != qs[j].id
  }

  lemma IdsApartLow()
    ensures IdsApart(QuestionBank, 0, 10, 0, 10)
  {
  }

  lemma IdsApartHigh()
    ensures IdsApart(QuestionBank, 10, 19, 10, 19)
  {
  }

  lemma IdsApartAcross()
    ensures IdsApart(QuestionBank, 0, 10, 10, 19)
  {
  }

  /** No two entries of the bank have the same id. */
  lemma BankIdsDistinct()
    ensures DistinctIds(QuestionBank)
  {
    IdsApartLow();
    IdsApartHigh();
    IdsApartAcross();
  }

  /** The bank holds nineteen entries, and every one of them accepts at least one answer. */
  lemma BankAnswersNonEmpty()
    ensures |QuestionBank| == 19
    ensures forall q :: q in QuestionBank ==> |q.expected| >= 1
  {
  }

  /** A sequence `s` is an order the spread copy of the bank can take after sorting: the same entries, each as often. */
  predicate IsShuffleOfBank(s: seq<Question>)
  {
    multiset(s) == multiset(QuestionBank)
  }

  /**
   * `pickRandom(count)`, with the order the sort leaves the copy in passed as
   * `shuffled`: the first `count` entries of it, `count` being read as the end
   * of a slice.
   */
  function PickRandom(shuffled: seq<Question>, count: int): (r: seq<Question>)
    ensures |r| <= |shuffled| && r == shuffled[..|r|]
    ensures count >= 0 ==> |r| == Min(count, |shuffled|)
    ensures count < 0 ==> |r| == Max(0, |shuffled| + count)
  {
    shuffled[..RelativeIndex(count, |shuffled|)]
  }

  /** An entry occurs in `s` once for `i` and once more for `j` if `s[j]` is the same entry. */
  lemma CountAtLeast<T>(s: seq<T>, i: nat, j: nat)
    requires i < j < |s|
    ensures multiset(s)[s[i]] >= 1 + (if s[j] == s[i] then 1 else 0)
  {
    assert s == s[..j] + [s[j]] + s[j + 1..];
    assert s[..j][i] == s[i];
    assert s[i] in multiset(s[..j]);
  }

  /** With distinct ids no entry occurs twice. */
  lemma {:induction false} CountAtMostOne(t: seq<Question>, x: Question)
    requires DistinctIds(t)
    ensures multiset(t)[x] <= 1
    decreases |t|
  {
    if t != [] {
      var u := t[1..];
      assert t == [t[0]] + u;
      assert DistinctIds(u) by {
        forall i, j | 0 <= i < j < |u| ensures u[i].id != u[j].id {
          assert u[i] == t[i + 1] && u[j] == t[j + 1];
        }
      }
      CountAtMostOne(u, x);
      if t[0] == x {
        forall k | 0 <= k < |u| ensures u[k] != x {
          assert u[k] == t[k + 1];
        }
        assert x !in multiset(u);
      }
    }
  }

  /** Within a sequence of distinct ids, an id names one entry. */
  lemma SameIdSameEntry(t: seq<Question>, x: Question, y: Question)
    requires DistinctIds(t) && x in t && y in t
    ensures x.id == y.id ==> x == y
  {
  }

  /** Reordering keeps ids distinct. */
  lemma DistinctIdsOfShuffle(s: seq<Question>, t: seq<Question>)
    requires multiset(s) == multiset(t) && DistinctIds(t)
    ensures DistinctIds(s)
  {
    forall i, j | 0 <= i < j < |s| ensures s[i].id != s[j].id {
      CountAtLeast(s, i, j);
      CountAtMostOne(t, s[i]);
      assert s[i] in multiset(t) && s[j] in multiset(t);
      SameIdSameEntry(t, s[i], s[j]);
    }
  }

  /** A pick from a reordering of `t` has min(count, |t|) entries for a count that is not negative, entries of `t` only, and no two with the same id when `t` has none. */
  lemma PickFromShuffle(s: seq<Question>, t: seq<Question>, count: int)
    requires multiset(s) == multiset(t) && DistinctIds(t)
    ensures var r := PickRandom(s, count);
            (count >= 0 ==> |r| == Min(count, |t|))
            && (forall q :: q in r ==> q in t)
            && DistinctIds(r)
  {
    assert |s| == |multiset(s)| == |multiset(t)| == |t|;
    var r := PickRandom(s, count);
    forall q | q in r ensures q in t {
      assert q in multiset(s);
    }
    DistinctIdsOfShuffle(s, t);
  }

  /** Picking |t| entries from a reordering of `t` yields every entry of `t` as often as `t` has it. */
  lemma PickAllOfShuffle(s: seq<Question>, t: seq<Question>)
    requires multiset(s) == multiset(t)
    ensures multiset(PickRandom(s, |t|)) == multiset(t)
  {
    assert |s| == |multiset(s)| == |multiset(t)| == |t|;
    assert s[..|s|] == s;
  }

  /** For a count that is not negative, the pick has min(count, 19) questions. */
  lemma PickSize(shuffled: seq<Question>, count: int)
    requires IsShuffleOfBank(shuffled)
    ensures count >= 0 ==> |PickRandom(shuffled, count)| == Min(count, |QuestionBank|)
  {
    BankIdsDistinct();
    PickFromShuffle(shuffled, QuestionBank, count);
  }

  /** Every picked question is a bank entry. */
  lemma PickFromBank(shuffled: seq<Question>, count: int)
    requires IsShuffleOfBank(shuffled)
    ensures forall q :: q in PickRandom(shuffled, count) ==> q in QuestionBank
  {
    BankIdsDistinct();
    PickFromShuffle(shuffled, QuestionBank, count);
  }

  /** No question is picked twice: the picked ids are distinct. */
  lemma PickDistinct(shuffled: seq<Question>, count: int)
    requires IsShuffleOfBank(shuffled)
    ensures DistinctIds(PickRandom(shuffled, count))
  {
    BankIdsDistinct();
    PickFromShuffle(shuffled, QuestionBank, count);
  }

  /** Picking as many as the bank holds, as the game does, yields every question once. */
  lemma PickWholeBank(shuffled: seq<Question>)
    requires IsShuffleOfBank(shuffled)
    ensures multiset(PickRandom(shuffled, |QuestionBank|)) == multiset(QuestionBank)
  {
    PickAllOfShuffle(shuffled, QuestionBank);
  }

  /** The default pick has ten questions. */
  lemma PickDefault(shuffled: seq<Question>)
    requires IsShuffleOfBank(shuffled)
    ensures |PickRandom(shuffled, DefaultPickCount)| == 10
  {
    BankIdsDistinct();
    PickFromShuffle(shuffled, QuestionBank, DefaultPickCount);
  }
}
