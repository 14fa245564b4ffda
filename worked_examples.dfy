/** Worked examples of the distance. Each is proved by filling in the
    Wagner-Fischer table row by row and reading off its last cell. The
    table lemmas receive their strings token by token, so that the verifier
    reads each token directly instead of indexing into a literal. */
module WorkedExamples {
  import opened LevenshteinSpec
  import App

  /** `s` is "flaw", stated token by token. */
  predicate IsFlaw(s: string) {
    |s| == 4 && s[0] == 'f' && s[1] == 'l' && s[2] == 'a' && s[3] == 'w'
  }

  /** `s` is "lawn", stated token by token. */
  predicate IsLawn(s: string) {
    |s| == 4 && s[0] == 'l' && s[1] == 'a' && s[2] == 'w' && s[3] == 'n'
  }

  /** `s` is "你好", stated token by token. */
  predicate IsNiHao(s: string) {
    |s| == 2 && s[0] == '你' && s[1] == '好'
  }

  /** `s` is "你好吗", stated token by token. */
  predicate IsNiHaoMa(s: string) {
    |s| == 3 && s[0] == '你' && s[1] == '好' && s[2] == '吗'
  }

  /** `s` is "kitten", stated token by token. */
  predicate IsKitten(s: string) {
    |s| == 6 && s[0] == 'k' && s[1] == 'i' && s[2] == 't' && s[3] == 't' && s[4] == 'e' && s[5] == 'n'
  }

  /** `s` is "sitting", stated token by token. */
  predicate IsSitting(s: string) {
    |s| == 7 && s[0] == 's' && s[1] == 'i' && s[2] == 't' && s[3] == 't' && s[4] == 'i' && s[5] == 'n' && s[6] == 'g'
  }

  /** The table for "flaw" against "lawn". */
  lemma FlawLawnTable(a: string, b: string)
    requires IsFlaw(a) && IsLawn(b)
    ensures TableCell(a, b, 4, 4) == 2
  {
    assert TableCell(a, b, 1, 1) == 1;
    assert TableCell(a, b, 1, 2) == 2;
    assert TableCell(a, b, 1, 3) == 3;
    assert TableCell(a, b, 1, 4) == 4;
    assert TableCell(a, b, 2, 1) == 1;
    assert TableCell(a, b, 2, 2) == 2;
    assert TableCell(a, b, 2, 3) == 3;
    assert TableCell(a, b, 2, 4) == 4;
    assert TableCell(a, b, 3, 1) == 2;
    assert TableCell(a, b, 3, 2) == 1;
    assert TableCell(a, b, 3, 3) == 2;
    assert TableCell(a, b, 3, 4) == 3;
    assert TableCell(a, b, 4, 1) == 3;
    assert TableCell(a, b, 4, 2) == 2;
    assert TableCell(a, b, 4, 3) == 1;
    assert TableCell(a, b, 4, 4) == 2;
  }

  /** Two edits: delete the leading f, append an n. */
  lemma FlawLawn()
    ensures Lev("flaw", "lawn") == 2
  {
    FlawLawnTable("flaw", "lawn");
    LevIsLastCell("flaw", "lawn");
  }
  /** The table for "你好" against "你好吗". */
  lemma NonAsciiTable(a: string, b: string)
    requires IsNiHao(a) && IsNiHaoMa(b)
    ensures TableCell(a, b, 2, 3) == 1
  {
    assert TableCell(a, b, 1, 1) == 0;
    assert TableCell(a, b, 1, 2) == 1;
    assert TableCell(a, b, 1, 3) == 2;
    assert TableCell(a, b, 2, 1) == 1;
    assert TableCell(a, b, 2, 2) == 0;
    assert TableCell(a, b, 2, 3) == 1;
  }

  /** Tokens are code points, so one appended character is one edit. */
  lemma NonAscii()
    ensures Lev("你好", "你好吗") == 1
  {
    NonAsciiTable("你好", "你好吗");
    LevIsLastCell("你好", "你好吗");
  }
  /** The table for "kitten" against "sitting". */
  lemma KittenSittingTable(a: string, b: string)
    requires IsKitten(a) && IsSitting(b)
    ensures TableCell(a, b, 6, 7) == 3
  {
    assert TableCell(a, b, 1, 1) == 1;
    assert TableCell(a, b, 1, 2) == 2;
    assert TableCell(a, b, 1, 3) == 3;
    assert TableCell(a, b, 1, 4) == 4;
    assert TableCell(a, b, 1, 5) == 5;
    assert TableCell(a, b, 1, 6) == 6;
    assert TableCell(a, b, 1, 7) == 7;
    assert TableCell(a, b, 2, 1) == 2;
    assert TableCell(a, b, 2, 2) == 1;
    assert TableCell(a, b, 2, 3) == 2;
    assert TableCell(a, b, 2, 4) == 3;
    assert TableCell(a, b, 2, 5) == 4;
    assert TableCell(a, b, 2, 6) == 5;
    assert TableCell(a, b, 2, 7) == 6;
    assert TableCell(a, b, 3, 1) == 3;
    assert TableCell(a, b, 3, 2) == 2;
    assert TableCell(a, b, 3, 3) == 1;
    assert TableCell(a, b, 3, 4) == 2;
    assert TableCell(a, b, 3, 5) == 3;
    assert TableCell(a, b, 3, 6) == 4;
    assert TableCell(a, b, 3, 7) == 5;
    assert TableCell(a, b, 4, 1) == 4;
    assert TableCell(a, b, 4, 2) == 3;
    assert TableCell(a, b, 4, 3) == 2;
    assert TableCell(a, b, 4, 4) == 1;
    assert TableCell(a, b, 4, 5) == 2;
    assert TableCell(a, b, 4, 6) == 3;
    assert TableCell(a, b, 4, 7) == 4;
    assert TableCell(a, b, 5, 1) == 5;
    assert TableCell(a, b, 5, 2) == 4;
    assert TableCell(a, b, 5, 3) == 3;
    assert TableCell(a, b, 5, 4) == 2;
    assert TableCell(a, b, 5, 5) == 2;
    assert TableCell(a, b, 5, 6) == 3;
    assert TableCell(a, b, 5, 7) == 4;
    assert TableCell(a, b, 6, 1) == 6;
    assert TableCell(a, b, 6, 2) == 5;
    assert TableCell(a, b, 6, 3) == 4;
    assert TableCell(a, b, 6, 4) == 3;
    assert TableCell(a, b, 6, 5) == 3;
    assert TableCell(a, b, 6, 6) == 2;
    assert TableCell(a, b, 6, 7) == 3;
  }

  /** The classic example: two substitutions and one insertion. */
  lemma KittenSitting()
    ensures Lev("kitten", "sitting") == 3
  {
    KittenSittingTable("kitten", "sitting");
    LevIsLastCell("kitten", "sitting");
  }
  /** Against an empty sequence, only insertions or only deletions remain. */
  lemma EmptyAgainstAbc()
    ensures Lev("", "abc") == 3 && Lev("abc", "") == 3
  {
    LevEmpty("abc", "abc");
  }

  /** The algorithm itself, run on "flaw" and "lawn", returns 2. */
  method FlawLawnScore() returns (d: nat)
    ensures d == 2
  {
    d := App.LevenshteinDistance("flaw", "lawn");
    FlawLawn();
  }

  /** With the shorter argument first, the algorithm swaps the arguments and
      returns 1 for "你好" against "你好吗". */
  method NonAsciiScore() returns (d: nat)
    ensures d == 1
  {
    d := App.LevenshteinDistance("你好", "你好吗");
    NonAscii();
  }

  /** The algorithm run on "kitten" and "sitting" returns 3. */
  method KittenSittingScore() returns (d: nat)
    ensures d == 3
  {
    d := App.LevenshteinDistance("kitten", "sitting");
    KittenSitting();
  }
}
