/**
 * The text of the multi-row INSERT statement that the batch insert builds,
 * and a reader that recovers the numbers of its `$n` parameters from the
 * text, so that the numbering can be stated about the text itself.
 */
module SqlText {

  predicate IsDigit(c: char)
  {
    '0' <= c <= '9'
  }

  predicate AllDigits(s: string)
  {
    forall i :: 0 <= i < |s| ==> IsDigit(s[i])
  }

  function DigitChar(d: nat): (c: char)
    requires d < 10
    ensures IsDigit(c)
  {
    ('0' as int + d) as char
  }

  function DigitValue(c: char): nat
    requires IsDigit(c)
  {
    c as int - '0' as int
  }

  /** The decimal rendering of `n`, as `%d` prints it. */
  function Decimal(n: nat): (s: string)
    ensures |s| > 0 && AllDigits(s)
  {
    if n < 10 then [DigitChar(n)] else Decimal(n / 10) + [DigitChar(n % 10)]
  }

  /** The number a string of digits denotes, most significant digit first. */
  function DigitsValue(s: string): nat
    requires AllDigits(s)
  {
    if s == [] then 0 else DigitsValue(s[..|s| - 1]) * 10 + DigitValue(s[|s| - 1])
  }

  lemma {:induction false} DecimalRoundTrip(n: nat)
    ensures DigitsValue(Decimal(n)) == n
  {
    var s := Decimal(n);
    if n >= 10 {
      DecimalRoundTrip(n / 10);
      assert s[..|s| - 1] == Decimal(n / 10);
    }
  }

  /** The length of the run of digits at the front of `s`. */
  function DigitRun(s: string): (k: nat)
    ensures k <= |s| && AllDigits(s[..k])
    ensures k < |s| ==> !IsDigit(s[k])
  {
    if s == [] || !IsDigit(s[0]) then 0 else 1 + DigitRun(s[1..])
  }

  /**
   * The parameter numbers of the `$n` placeholders in a statement, in the
   * order they appear in its text.
   */
  function Placeholders(s: string): seq<nat>
    decreases |s|
  {
    if s == [] then []
    else if s[0] == '$' then
      var k := DigitRun(s[1..]);
      assert s[1..1 + k] == s[1..][..k];
      (if k == 0 then [] else [DigitsValue(s[1..1 + k])]) + Placeholders(s[1 + k..])
    else Placeholders(s[1..])
  }

  /** The numbers of the ten placeholders of the row whose first parameter follows `d`. */
  function RowNumbers(d: nat): (r: seq<nat>)
  {
    seq(10, k => d + k + 1)
  }

  /** The placeholders `$a, $b, ...` separated by ", ". */
  function ParamList(nums: seq<nat>): string
  {
    if |nums| == 0 then ""
    else if |nums| == 1 then "$" + Decimal(nums[0])
    else "$" + Decimal(nums[0]) + ", " + ParamList(nums[1..])
  }

  /** `(${d+1}, ..., ${d+10})`, the placeholder tuple of one row. */
  function RowTuple(d: nat): string
  {
    "(" + ParamList(RowNumbers(d))  + ")"
  }

  /** What the loop has appended after `n` rows: every tuple followed by a comma. */
  function TuplesWithCommas(n: nat): string
  {
    if n == 0 then "" else TuplesWithCommas(n - 1) + RowTuple(10 * (n - 1)) + ","
  }

  /** The VALUES list of `n` rows: the tuples separated by commas. */
  function ValuesList(n: nat): string
    requires n > 0
  {
    (if n == 1 then "" else ValuesList(n - 1) + ",") + RowTuple(10 * (n - 1))
  }

  // The two fixed parts of the statement, written in short pieces so that
  // facts about their characters stay cheap to check.
  const InsertHead: string :=
    "\n        INSERT INTO " + "feed (time, md5, " + "source_name, parsed, " + "title, description, "
    + "full_text, link, " + "enclosure, category)" + "\n        VALUES\n    "

  const ConflictClause: string :=
    "\n\t\tON CONFLICT (link) " + "DO UPDATE\n\t\tSET " + "title = EXCLUDED.title," + "\n\t\tdescription = "
    + "EXCLUDED.description," + "\n\t\tfull_text = " + "EXCLUDED.full_text," + "\n\t\tcategory = "
    + "EXCLUDED.category\n\t"

  /** The whole statement for `n` rows. */
  function InsertQuery(n: nat): string
    requires n > 0
  {
    InsertHead + ValuesList(n) + "\n" + ConflictClause
  }

  /** Stripping the last character of the loop's output leaves the VALUES list. */
  lemma {:induction false} StripTrailingComma(n: nat)
    requires n > 0
    ensures |TuplesWithCommas(n)| > 0
    ensures TuplesWithCommas(n)[..|TuplesWithCommas(n)| - 1] == ValuesList(n)
    ensures TuplesWithCommas(n) == ValuesList(n) + ","
  {
    if n > 1 {
      StripTrailingComma(n - 1);
    }
  }
}

module SqlTextProofs {
  import opened SqlText
  import Seqs

  lemma {:induction false} DigitRunOfDigits(ds: string, tail: string)
    requires AllDigits(ds)
    requires tail == [] || !IsDigit(tail[0])
    ensures DigitRun(ds + tail) == |ds|
  {
    if ds != [] {
      assert (ds + tail)[1..] == ds[1..] + tail;
      DigitRunOfDigits(ds[1..], tail);
    }
  }

  /** A character other than `$` contributes no placeholder. */
  lemma SkipChar(c: char, s: string)
    requires c != '$'
    ensures Placeholders([c] + s) == Placeholders(s)
  {
    assert ([c] + s)[1..] == s;
  }

  /** `$n` followed by a non-digit reads back as the number n. */
  lemma PlaceholderReadsBack(n: nat, rest: string)
    requires rest == [] || !IsDigit(rest[0])
    ensures Placeholders("$" + Decimal(n) + rest) == [n] + Placeholders(rest)
  {
    var ds := Decimal(n);
    var s := "$" + ds + rest;
    assert s[1..] == ds + rest;
    DigitRunOfDigits(ds, rest);
    assert s[1..1 + |ds|] == ds;
    DecimalRoundTrip(n);
    assert s[1 + |ds|..] == rest;
  }

  lemma ParamListUnfold(nums: seq<nat>)
    requires |nums| > 1
    ensures ParamList(nums) == "$" + Decimal(nums[0]) + ", " + ParamList(nums[1..])
  {
  }

  /** The separator ", " contributes no placeholder. */
  lemma SkipSeparator(inner: string)
    ensures Placeholders(", " + inner) == Placeholders(inner)
  {
    assert ", " + inner == [','] + ([' '] + inner);
    SkipChar(',', [' '] + inner);
    SkipChar(' ', inner);
  }

  /** Reading a list of two or more placeholders yields its first number, then the rest. */
  lemma ParamListStep(nums: seq<nat>, tail: string)
    requires |nums| > 1
    ensures Placeholders(ParamList(nums) + tail) == [nums[0]] + Placeholders(ParamList(nums[1..]) + tail)
  {
    var inner := ParamList(nums[1..]) + tail;
    ParamListUnfold(nums);
    Seqs.Regroup("$" + Decimal(nums[0]), ", ", ParamList(nums[1..]), tail);
    assert (", " + inner)[0] == ',';
    PlaceholderReadsBack(nums[0], ", " + inner);
    SkipSeparator(inner);
  }

  /** A placeholder list followed by a non-digit reads back as its numbers. */
  lemma {:induction false} ParamListReadsBack(nums: seq<nat>, tail: string)
    requires |nums| > 0
    requires tail == [] || !IsDigit(tail[0])
    ensures Placeholders(ParamList(nums) + tail) == nums + Placeholders(tail)
  {
    if |nums| == 1 {
      PlaceholderReadsBack(nums[0], tail);
    } else {
      ParamListStep(nums, tail);
      ParamListReadsBack(nums[1..], tail);
      Seqs.Assoc([nums[0]], nums[1..], Placeholders(tail));
      assert nums == [nums[0]] + nums[1..];
    }
  }

  predicate EndsClosed(a: string)
  {
    a == [] || (a[|a| - 1] != '$' && !IsDigit(a[|a| - 1]))
  }

  /** The placeholder an opening `$` of `a` starts is read the same way when `b` follows. */
  lemma DollarSplit(a: string, b: string)
    requires a != [] && a[0] == '$' && EndsClosed(a)
    ensures 1 + DigitRun(a[1..]) < |a| + 1
    ensures DigitRun((a + b)[1..]) == DigitRun(a[1..])
    ensures (a + b)[1..1 + DigitRun(a[1..])] == a[1..1 + DigitRun(a[1..])]
    ensures (a + b)[1 + DigitRun(a[1..])..] == a[1 + DigitRun(a[1..])..] + b
    ensures EndsClosed(a[1 + DigitRun(a[1..])..])
  {
    var t := a[1..];
    assert t != [];
    assert (a + b)[1..] == t + b;
    var k := DigitRun(t);
    assert t[|t| - 1] == a[|a| - 1];
    assert k < |t|;
    DigitRunPrefix(t, b, k);
    var rest := a[1 + k..];
    assert rest[|rest| - 1] == a[|a| - 1];
  }

  /** One unfolding of the reader at a `$`. */
  lemma ReadDollar(s: string)
    requires s != [] && s[0] == '$'
    ensures 1 + DigitRun(s[1..]) <= |s|
    ensures AllDigits(s[1..1 + DigitRun(s[1..])])
    ensures Placeholders(s)
      == (if DigitRun(s[1..]) == 0 then [] else [DigitsValue(s[1..1 + DigitRun(s[1..])])])
         + Placeholders(s[1 + DigitRun(s[1..])..])
  {
    var k := DigitRun(s[1..]);
    assert s[1..1 + k] == s[1..][..k];
  }

  /** Reading placeholders distributes over a split that does not cut one in two. */
  lemma {:induction false} PlaceholdersConcat(a: string, b: string)
    requires EndsClosed(a)
    ensures Placeholders(a + b) == Placeholders(a) + Placeholders(b)
    decreases |a|
  {
    if a != [] {
      var s := a + b;
      if a[0] == '$' {
        var k := DigitRun(a[1..]);
        DollarSplit(a, b);
        ReadDollar(a);
        ReadDollar(s);
        PlaceholdersConcat(a[1 + k..], b);
        var head: seq<nat> := if k == 0 then [] else [DigitsValue(a[1..1 + k])];
        Seqs.Assoc(head, Placeholders(a[1 + k..]), Placeholders(b));
      } else {
        assert s[1..] == a[1..] + b;
        assert EndsClosed(a[1..]);
        PlaceholdersConcat(a[1..], b);
        assert Placeholders(s) == Placeholders(a[1..] + b);
        assert Placeholders(a) == Placeholders(a[1..]);
      }
    } else {
      assert a + b == b;
    }
  }

  lemma {:induction false} DigitRunPrefix(a: string, b: string, k: nat)
    requires k < |a| && k == DigitRun(a)
    ensures DigitRun(a + b) == k
    decreases k
  {
    if k > 0 {
      assert (a + b)[1..] == a[1..] + b;
      DigitRunPrefix(a[1..], b, k - 1);
    }
  }

  lemma {:induction false} NoPlaceholders(a: string)
    requires '$' !in a
    ensures Placeholders(a) == []
    decreases |a|
  {
    if a != [] {
      assert a[0] in a;
      assert forall c :: c in a[1..] ==> c in a;
      NoPlaceholders(a[1..]);
    }
  }

  lemma RowTupleReadsBack(d: nat)
    ensures Placeholders(RowTuple(d)) == RowNumbers(d)
  {
    var inner := ParamList(RowNumbers(d)) + ")";
    assert RowTuple(d) == "(" + inner;
    assert RowTuple(d)[1..] == inner;
    ParamListReadsBack(RowNumbers(d), ")");
    NoPlaceholders(")");
  }

  lemma ValuesListUnfold(n: nat)
    requires n > 1
    ensures ValuesList(n) == ValuesList(n - 1) + ("," + RowTuple(10 * (n - 1)))
  {
    Seqs.Assoc(ValuesList(n - 1), ",", RowTuple(10 * (n - 1)));
  }

  /** Each further row adds its own ten numbers after those of the rows before it. */
  lemma ValuesListStep(n: nat)
    requires n > 1
    ensures Placeholders(ValuesList(n)) == Placeholders(ValuesList(n - 1)) + RowNumbers(10 * (n - 1))
  {
    var d := 10 * (n - 1);
    var a := ValuesList(n - 1);
    ValuesListEnds(n - 1);
    ValuesListUnfold(n);
    PlaceholdersConcat(a, "," + RowTuple(d));
    SkipChar(',', RowTuple(d));
    RowTupleReadsBack(d);
  }

  /** The numbers 1..10m followed by the ten numbers of row m are the numbers 1..10(m+1). */
  lemma NumbersStep(m: nat)
    ensures seq(10 * m, j => j + 1) + RowNumbers(10 * m) == seq(10 * (m + 1), j => j + 1)
  {
    var lhs := seq(10 * m, j => j + 1) + RowNumbers(10 * m);
    forall j | 0 <= j < 10 * (m + 1)
      ensures lhs[j] == j + 1
    {
      if j >= 10 * m {
        assert lhs[j] == RowNumbers(10 * m)[j - 10 * m];
      }
    }
  }

  /** The VALUES list of `n` rows numbers its parameters 1, 2, ..., 10n without gaps. */
  lemma {:induction false} ValuesListNumbering(n: nat)
    requires n > 0
    ensures Placeholders(ValuesList(n)) == seq(10 * n, j => j + 1)
  {
    if n == 1 {
      assert ValuesList(n) == RowTuple(0);
      RowTupleReadsBack(0);
      assert RowNumbers(0) == seq(10, j => j + 1);
    } else {
      ValuesListNumbering(n - 1);
      ValuesListStep(n);
      NumbersStep(n - 1);
    }
  }

  lemma ValuesListEnds(n: nat)
    requires n > 0
    ensures |ValuesList(n)| > 0 && ValuesList(n)[|ValuesList(n)| - 1] == ')'
  {
  }

  lemma HeadHasNoPlaceholders()
    ensures '$' !in InsertHead
  {
  }

  lemma ConflictClauseHasNoPlaceholders()
    ensures '$' !in "\n" + ConflictClause
  {
  }

  /** Text without `$` around a placeholder-bearing part adds no placeholders. */
  lemma {:induction false} FixedTextAround(head: string, body: string, tail: string)
    requires '$' !in head && '$' !in tail
    requires EndsClosed(body)
    ensures Placeholders(head + body + tail) == Placeholders(body)
    decreases |head|
  {
    if head == [] {
      assert head + body + tail == body + tail;
      PlaceholdersConcat(body, tail);
      NoPlaceholders(tail);
    } else {
      assert head[0] in head;
      assert forall c :: c in head[1..] ==> c in head;
      assert head + body + tail == [head[0]] + (head[1..] + body + tail);
      SkipChar(head[0], head[1..] + body + tail);
      FixedTextAround(head[1..], body, tail);
    }
  }

  /**
   * The statement for `n` rows uses the parameters 1..10n, each once, in
   * order: row i owns 10i+1..10i+10.
   */
  lemma InsertQueryNumbering(n: nat)
    requires n > 0
    ensures Placeholders(InsertQuery(n)) == seq(10 * n, j => j + 1)
  {
    HeadHasNoPlaceholders();
    ConflictClauseHasNoPlaceholders();
    ValuesListEnds(n);
    FixedTextAround(InsertHead, ValuesList(n), "\n" + ConflictClause);
    ValuesListNumbering(n);
    assert InsertQuery(n) == InsertHead + ValuesList(n) + ("\n" + ConflictClause);
  }

  lemma TuplesStep(head: string, i: nat)
    ensures head + TuplesWithCommas(i) + RowTuple(i * 10) + "," == head + TuplesWithCommas(i + 1)
  {
    var d := i * 10;
    assert d == 10 * i;
    assert TuplesWithCommas(i + 1) == TuplesWithCommas(i) + RowTuple(d) + ",";
    Seqs.Regroup(head, TuplesWithCommas(i), RowTuple(d), ",");
    Seqs.Assoc(TuplesWithCommas(i), RowTuple(d), ",");
  }

  /** Cutting the last character of the loop's output leaves the head and the VALUES list. */
  lemma FinishQuery(head: string, n: nat, query: string)
    requires n > 0 && query == head + TuplesWithCommas(n)
    ensures |query| > 0 && query[..|query| - 1] == head + ValuesList(n)
  {
    StripTrailingComma(n);
    var body := TuplesWithCommas(n);
    assert (head + body)[..|head + body| - 1] == head + body[..|body| - 1];
  }
}
