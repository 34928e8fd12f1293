/** Descriptions of classification criteria: the marked-up text that explains a rule.

    The localized words ("of", "one of", "or" and the numerals one to twelve) are
    looked up and upper-cased by the caller; here they arrive as a `Tokens` record.
    Leaf descriptions are opaque and given by `leafText`. */
module Rendering {
  import opened Criteria
  import Decimal

  /** The upper-cased localized strings the descriptions use. */
  datatype Tokens = Tokens(
    ofWord: string, oneOfWord: string, orWord: string,
    one: string, two: string, three: string, four: string, five: string, six: string,
    seven: string, eight: string, nine: string, ten: string, eleven: string, twelve: string)

  /** The localized word for an amount in 1..12. */
  function Numeral(tok: Tokens, amount: int): string
    requires 1 <= amount <= 12
  {
    match amount
    case 1 => tok.one
    case 2 => tok.two
    case 3 => tok.three
    case 4 => tok.four
    case 5 => tok.five
    case 6 => tok.six
    case 7 => tok.seven
    case 8 => tok.eight
    case 9 => tok.nine
    case 10 => tok.ten
    case 11 => tok.eleven
    case _ => tok.twelve
  }

  /** `parseAmountNumber`: amounts 1..12 are words; every other int (zero and
      negatives included) is written in decimal, and that text reads back as the amount. */
  function ParseAmountNumber(tok: Tokens, amount: int): (s: string)
    ensures 1 <= amount <= 12 ==> s == Numeral(tok, amount)
    ensures !(1 <= amount <= 12) ==> s == Decimal.IntToString(amount)
    ensures !(1 <= amount <= 12) ==>
      |s| >= 1 && (s[0] == '-' ==> Decimal.AllDigits(s[1..])) && (s[0] != '-' ==> Decimal.AllDigits(s)) &&
      Decimal.ParseInt(s) == amount
  {
    Decimal.IntRoundTrip(amount);
    if 1 <= amount <= 12 then Numeral(tok, amount) else Decimal.IntToString(amount)
  }

  /** `getCriteriaName`: the emphasized "<amount> OF" label, shared by all three variants.
      The amount word sits right after the opening tag and is followed by one space. */
  function CriteriaName(tok: Tokens, amount: int): (s: string)
    ensures var w := ParseAmountNumber(tok, amount);
      |s| == |w| + |tok.ofWord| + 8 &&
      s[..3] == "<b>" && s[3..3 + |w|] == w && s[3 + |w|] == ' ' &&
      s[4 + |w|..|s| - 4] == tok.ofWord && s[|s| - 4..] == "</b>"
  {
    LabelLayout(ParseAmountNumber(tok, amount), tok.ofWord);
    "<b>" + ParseAmountNumber(tok, amount) + " " + tok.ofWord + "</b>"
  }

  /** Where the amount word and the OF word sit in the emphasized label. */
  lemma LabelLayout(w: string, ofWord: string)
    ensures var s := "<b>" + w + " " + ofWord + "</b>";
      |s| == |w| + |ofWord| + 8 &&
      s[..3] == "<b>" && s[3..3 + |w|] == w && s[3 + |w|] == ' ' &&
      s[4 + |w|..|s| - 4] == ofWord && s[|s| - 4..] == "</b>"
  {
  }

  /** The emphasized "ONE OF" label that opens a bulleted description. */
  function BulletHeader(tok: Tokens): string {
    "<b> " + tok.oneOfWord + "</b>"
  }

  /** The emphasized "OR" that goes before the last child of a compact description. */
  function OrSeparator(tok: Tokens): string {
    " <b>" + tok.orWord + "</b> "
  }

  /** One line break and bullet marker before each description, in order. */
  function Bullets(ds: seq<string>): string {
    if ds == [] then "" else Bullets(ds[..|ds| - 1]) + "<br/>- " + ds[|ds| - 1]
  }

  /** The descriptions joined with ", ". */
  function Commas(ds: seq<string>): string {
    if |ds| == 0 then ""
    else if |ds| == 1 then ds[0]
    else Commas(ds[..|ds| - 1]) + ", " + ds[|ds| - 1]
  }

  /** The compact one-of text: nothing, the only description, or the descriptions
      joined with ", " except for the emphasized "OR" before the last one. */
  function CompactText(ds: seq<string>, tok: Tokens): string {
    if |ds| == 0 then ""
    else if |ds| == 1 then ds[0]
    else Commas(ds[..|ds| - 1]) + OrSeparator(tok) + ds[|ds| - 1]
  }

  /** Total length of the descriptions. */
  function SumLen(ds: seq<string>): nat {
    if ds == [] then 0 else SumLen(ds[..|ds| - 1]) + |ds[|ds| - 1]|
  }

  /** Each bullet line adds its description and the seven characters of `<br/>- `. */
  lemma {:induction false} BulletsLength(ds: seq<string>)
    ensures |Bullets(ds)| == SumLen(ds) + 7 * |ds|
    decreases |ds|
  {
    if ds != [] {
      BulletsLength(ds[..|ds| - 1]);
    }
  }

  /** The description of each child, in order. */
  function Descriptions(kids: seq<Crit>, tok: Tokens, leafText: nat -> string): (ds: seq<string>)
    ensures |ds| == |kids|
    ensures forall i :: 0 <= i < |kids| ==> ds[i] == Describe(kids[i], tok, leafText)
    decreases kids, 0
  {
    seq(|kids|, i requires 0 <= i < |kids| => Describe(kids[i], tok, leafText))
  }

  /** `buildDescription`, per variant. It takes no case data: a description is a
      property of the rule alone. A plain combinator shows only its label; a bulleted
      one starts with the "ONE OF" label and adds a seven-character marker per child;
      a compact one with no children is empty. */
  function Describe(c: Crit, tok: Tokens, leafText: nat -> string): (d: string)
    ensures c.Leaf? ==> d == leafText(c.id)
    ensures c.XOf? && c.mode == Default ==> d == CriteriaName(tok, c.requiredAmount)
    ensures c.XOf? && c.mode == Bulleted ==>
      |d| >= |BulletHeader(tok)| + 7 * |c.kids| && d[..|BulletHeader(tok)|] == BulletHeader(tok)
    ensures c.XOf? && c.mode == Compact && c.kids == [] ==> d == ""
    decreases c, 1
  {
    match c
    case Leaf(id) => leafText(id)
    case XOf(amount, kids, mode) =>
      match mode
      case Default => CriteriaName(tok, amount)
      case Bulleted =>
        var ds := Descriptions(kids, tok, leafText);
        BulletsLength(ds);
        BulletHeader(tok) + Bullets(ds)
      case Compact => CompactText(Descriptions(kids, tok, leafText), tok)
  }

  /** The length of each combinator's description in terms of its children's: the
      bulleted one is the label, the children and a seven-character marker each; the
      compact one is its only child's description, or the children with one ", " per
      gap except the emphasized "OR" before the last. */
  lemma DescriptionShape(c: Crit, tok: Tokens, leafText: nat -> string)
    requires c.XOf?
    ensures var ds := Descriptions(c.kids, tok, leafText);
      var d := Describe(c, tok, leafText);
      (c.mode == Bulleted ==> |d| == |BulletHeader(tok)| + SumLen(ds) + 7 * |c.kids|) &&
      (c.mode == Compact && |c.kids| == 1 ==> d == ds[0]) &&
      (c.mode == Compact && |c.kids| >= 2 ==> |d| == SumLen(ds) + 2 * (|c.kids| - 2) + |OrSeparator(tok)|)
  {
    var ds := Descriptions(c.kids, tok, leafText);
    BulletsLength(ds);
    if |ds| >= 2 {
      CompactLength(ds, tok);
    }
  }

  /** One more bullet line appended to a bulleted text. */
  lemma BulletStep(header: string, ds: seq<string>, i: nat)
    requires i < |ds|
    ensures header + Bullets(ds[..i]) + "<br/>- " + ds[i] == header + Bullets(ds[..i + 1])
  {
    assert ds[..i + 1][..i] == ds[..i];
  }

  /** One more description appended to a compact text: after the first, a ", " before
      each but the last, and the "OR" separator before the last. */
  lemma CompactStep(ds: seq<string>, i: nat, tok: Tokens)
    requires i < |ds|
    ensures i == 0 && |ds| == 1 ==> "" + ds[0] == CompactText(ds, tok)
    ensures i == 0 && |ds| > 1 ==> "" + ds[0] == Commas(ds[..1])
    ensures 0 < i && i + 1 < |ds| ==> Commas(ds[..i]) + ", " + ds[i] == Commas(ds[..i + 1])
    ensures 0 < i && i + 1 == |ds| ==> Commas(ds[..i]) + OrSeparator(tok) + ds[i] == CompactText(ds, tok)
  {
    assert ds[..i + 1][..i] == ds[..i];
    if i == 0 {
      assert "" + ds[0] == ds[0];
    }
  }

  /** `buildDescription` as ClassificationXOfCriteriaDto runs it, appending to a
      string builder child by child. */
  method BuildDescription(c: Crit, tok: Tokens, leafText: nat -> string) returns (s: string)
    ensures s == Describe(c, tok, leafText)
    decreases c
  {
    match c
    case Leaf(id) =>
      s := leafText(id);
    case XOf(amount, kids, mode) =>
      ghost var ds := Descriptions(kids, tok, leafText);
      match mode
      case Default =>
        s := CriteriaName(tok, amount);
      case Bulleted =>
        s := BulletHeader(tok);
        var i := 0;
        while i < |kids|
          invariant 0 <= i <= |kids|
          invariant s == BulletHeader(tok) + Bullets(ds[..i])
        {
          var d := BuildDescription(kids[i], tok, leafText);
          BulletStep(BulletHeader(tok), ds, i);
          s := s + "<br/>- " + d;
          i := i + 1;
        }
        assert ds[..i] == ds;
      case Compact =>
        var n := |kids|;
        s := "";
        var i := 0;
        while i < n
          invariant 0 <= i <= n
          invariant i < n ==> s == Commas(ds[..i])
          invariant i == n ==> s == CompactText(ds, tok)
        {
          if i > 0 {
            if i + 1 < n {
              s := s + ", ";
            } else {
              s := s + OrSeparator(tok);
            }
          }
          var d := BuildDescription(kids[i], tok, leafText);
          CompactStep(ds, i, tok);
          s := s + d;
          i := i + 1;
        }
  }

  /** The default description is the "<amount> OF" label and ignores the children. */
  lemma DefaultIgnoresChildren(amount: int, kids1: seq<Crit>, kids2: seq<Crit>, tok: Tokens, leafText: nat -> string)
    ensures Describe(XOfCriteria(amount, kids1), tok, leafText) == Describe(XOfCriteria(amount, kids2), tok, leafText)
    ensures Describe(XOfCriteria(amount, kids1), tok, leafText) == "<b>" + ParseAmountNumber(tok, amount) + " " + tok.ofWord + "</b>"
  {
  }

  /** The first amount past the table is written "13". */
  lemma AmountThirteen(tok: Tokens)
    ensures ParseAmountNumber(tok, 13) == "13"
  {
    assert Decimal.NatToString(1) == "1";
    assert Decimal.NatToString(13) == Decimal.NatToString(1) + "3";
  }

  /** Bullets distribute over concatenation: each child contributes its own line. */
  lemma {:induction false} BulletsAppend(ds1: seq<string>, ds2: seq<string>)
    ensures Bullets(ds1 + ds2) == Bullets(ds1) + Bullets(ds2)
    decreases |ds2|
  {
    if ds2 == [] {
      assert ds1 + ds2 == ds1;
    } else {
      var init := ds2[..|ds2| - 1];
      BulletsAppend(ds1, init);
      assert (ds1 + ds2)[..|ds1 + ds2| - 1] == ds1 + init;
    }
  }

  /** The last of the first `i + 1` bullet lines is the i-th child's. */
  lemma BulletsLast(ds: seq<string>, i: nat)
    requires i < |ds|
    ensures Bullets(ds[..i + 1]) == Bullets(ds[..i]) + "<br/>- " + ds[i]
  {
    assert ds[..i + 1][..i] == ds[..i];
  }

  /** The bullet lines split around the i-th one. */
  lemma BulletsSplit(ds: seq<string>, i: nat)
    requires i < |ds|
    ensures Bullets(ds) == Bullets(ds[..i]) + "<br/>- " + ds[i] + Bullets(ds[i + 1..])
  {
    assert ds == ds[..i + 1] + ds[i + 1..];
    BulletsAppend(ds[..i + 1], ds[i + 1..]);
    BulletsLast(ds, i);
  }

  /** Regrouping the pieces of a bulleted description. */
  lemma Regroup(header: string, before: string, marker: string, line: string, after: string)
    ensures header + (before + marker + line + after) == header + before + marker + line + after
  {
  }

  /** The bulleted description is the "ONE OF" label followed by one bullet line per
      child, in order: the i-th line holds exactly the i-th child's description.
      The required amount plays no part. */
  lemma {:induction false} BulletedLines(amount: int, kids: seq<Crit>, i: nat, tok: Tokens, leafText: nat -> string)
    requires i < |kids|
    ensures var ds := Descriptions(kids, tok, leafText);
      Describe(XOfSubCriteria(amount, kids), tok, leafText) ==
        BulletHeader(tok) + Bullets(ds[..i]) + "<br/>- " + Describe(kids[i], tok, leafText) + Bullets(ds[i + 1..])
    ensures forall other: int :: Describe(XOfSubCriteria(other, kids), tok, leafText) == Describe(XOfSubCriteria(amount, kids), tok, leafText)
  {
    var ds := Descriptions(kids, tok, leafText);
    BulletsSplit(ds, i);
    Regroup(BulletHeader(tok), Bullets(ds[..i]), "<br/>- ", ds[i], Bullets(ds[i + 1..]));
  }

  /** The compact text for no, one, two and three children. */
  lemma CompactSmallCases(a: string, b: string, c: string, tok: Tokens)
    ensures CompactText([], tok) == ""
    ensures CompactText([a], tok) == a
    ensures CompactText([a, b], tok) == a + " <b>" + tok.orWord + "</b> " + b
    ensures CompactText([a, b, c], tok) == a + ", " + b + " <b>" + tok.orWord + "</b> " + c
  {
    assert [a, b][..1] == [a];
    assert [a, b, c][..2] == [a, b];
    assert [a, b][..1] == [a];
  }

  lemma {:induction false} CommasLength(ds: seq<string>)
    requires |ds| >= 1
    ensures |Commas(ds)| == SumLen(ds) + 2 * (|ds| - 1)
    decreases |ds|
  {
    if |ds| > 1 {
      CommasLength(ds[..|ds| - 1]);
    } else {
      assert ds[..0] == [];
    }
  }

  /** With two or more children the compact text holds the descriptions, one ", " less
      than there are gaps, and one "OR" separator: nothing else. */
  lemma CompactLength(ds: seq<string>, tok: Tokens)
    requires |ds| >= 2
    ensures |CompactText(ds, tok)| == SumLen(ds) + 2 * (|ds| - 2) + |OrSeparator(tok)|
  {
    CommasLength(ds[..|ds| - 1]);
  }

  /** A compact one-of nested under a "two of": the outer label and the inner
      compact text are each what their own variant prescribes. */
  lemma NestedRenderingScenario(tok: Tokens, leafText: nat -> string)
    ensures var inner := OneOfCompactCriteria([Leaf(1), Leaf(2)]);
      Describe(XOfCriteria(2, [Leaf(0), inner]), tok, leafText) == CriteriaName(tok, 2) &&
      Describe(inner, tok, leafText) == leafText(1) + " <b>" + tok.orWord + "</b> " + leafText(2)
  {
    var inner := OneOfCompactCriteria([Leaf(1), Leaf(2)]);
    var ds := Descriptions(inner.kids, tok, leafText);
    assert ds == [leafText(1), leafText(2)];
    CompactSmallCases(leafText(1), leafText(2), "", tok);
  }
}
