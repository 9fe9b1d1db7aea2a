/** Traversal paths and the label strings the main simplifier substitutes
    for functions and for circular references (src/index.ts:18-24). */
module Labels {

  /** One step of a traversal path: `.key` into an object, `.[i]` into an array. */
  datatype Seg = Key(key: string) | Index(index: nat)

  /** A path below the root, which is written `config`. */
  type Path = seq<Seg>

  function DigitChar(d: nat): (c: char)
    requires d < 10
    ensures DigitValue(c) == d
  {
    "0123456789"[d]
  }

  /** The value of a decimal digit character. */
  function DigitValue(c: char): int
  {
    c as int - '0' as int
  }

  function Pow10(k: nat): nat
  {
    if k == 0 then 1 else 10 * Pow10(k - 1)
  }

  /** The number a string of decimal digits denotes, read from its most
      significant digit on. */
  function DigitsValue(s: string): int
  {
    if s == [] then 0 else DigitValue(s[0]) * Pow10(|s| - 1) + DigitsValue(s[1..])
  }

  /** Appending a digit shifts the value one decimal place. */
  lemma {:induction false} DigitsValueSnoc(s: string, c: char)
    ensures DigitsValue(s + [c]) == DigitsValue(s) * 10 + DigitValue(c)
  {
    if s == [] {
      assert [c][1..] == [];
    } else {
      assert (s + [c])[1..] == s[1..] + [c];
      DigitsValueSnoc(s[1..], c);
      var d, p := DigitValue(s[0]), Pow10(|s| - 1);
      assert Pow10(|s|) == 10 * p;
      assert d * (10 * p) == (d * p) * 10;
    }
  }

  /** Decimal notation, as a template literal prints an array index: digits
      only, more than one exactly from 10 on, no leading zero, and denoting
      `n`. */
  function NatToString(n: nat): (s: string)
    ensures |s| > 0 && (|s| == 1 <==> n < 10)
    ensures forall i | 0 <= i < |s| :: '0' <= s[i] <= '9'
    ensures DigitsValue(s) == n
    ensures |s| == 1 || s[0] != '0'
    decreases n
  {
    if n < 10 then
      assert [DigitChar(n)][1..] == [];
      [DigitChar(n)]
    else
      DigitsValueSnoc(NatToString(n / 10), DigitChar(n % 10));
      NatToString(n / 10) + [DigitChar(n % 10)]
  }

  /** The number can be read back from its decimal notation. */
  lemma {:induction false} NatToStringInjective(m: nat, n: nat)
    requires NatToString(m) == NatToString(n)
    ensures m == n
    decreases n
  {
    if 10 <= m && 10 <= n {
      var sm, sn := NatToString(m), NatToString(n);
      assert sm[..|sm| - 1] == NatToString(m / 10);
      assert sn[..|sn| - 1] == NatToString(n / 10);
      NatToStringInjective(m / 10, n / 10);
      assert DigitChar(m % 10) == sm[|sm| - 1] == DigitChar(n % 10);
    }
  }

  function SegText(s: Seg): string
  {
    match s
    case Key(k) => "." + k
    case Index(i) => ".[" + NatToString(i) + "]"
  }

  /** The path string, built as the traversal builds it: `"config"`, then
      `${path}.${key}` or `${path}.[${ind}]` per step. */
  function PathString(p: Path): (s: string)
    ensures s == "config" + Rendered(p)
  {
    if p == [] then "config"
    else
      var q := p[..|p| - 1];
      RenderedSnoc(q, p[|p| - 1]);
      assert q + [p[|p| - 1]] == p;
      PathString(q) + SegText(p[|p| - 1])
  }

  /** The steps of a path written out left to right; empty, or starting
      with a dot. */
  function Rendered(p: Path): (s: string)
    ensures s == [] <==> p == []
    ensures s != [] ==> s[0] == '.'
  {
    if p == [] then [] else SegText(p[0]) + Rendered(p[1..])
  }

  lemma {:induction false} RenderedSnoc(p: Path, seg: Seg)
    ensures Rendered(p + [seg]) == Rendered(p) + SegText(seg)
  {
    if p != [] {
      assert (p + [seg])[1..] == p[1..] + [seg];
      RenderedSnoc(p[1..], seg);
    }
  }

  /** Two strings free of `d`, each followed by a text that is empty or
      starts with `d`: if the concatenations agree, so do the parts. */
  lemma SplitAt(a: string, b: string, r1: string, r2: string, d: char)
    requires d !in a && d !in b
    requires (r1 == [] || r1[0] == d) && (r2 == [] || r2[0] == d)
    requires a + r1 == b + r2
    ensures a == b && r1 == r2
  {
    var x := a + r1;
    FirstDelimiter(a, r1, d);
    FirstDelimiter(b, r2, d);
    assert |a| == |b|;
    assert a == x[..|a|] == b;
  }

  /** In `a + r`, the first `d` (if any) is the first character of `r`. */
  lemma FirstDelimiter(a: string, r: string, d: char)
    requires d !in a && (r == [] || r[0] == d)
    ensures forall k | 0 <= k < |a| :: (a + r)[k] != d
    ensures |a| < |a + r| ==> (a + r)[|a|] == d
  {
    forall k | 0 <= k < |a|
      ensures (a + r)[k] != d
    {
      assert (a + r)[k] == a[k] && a[k] in a;
    }
  }

  /** A step can be read back from its text followed by the text of the
      rest of the path, when both steps are of one kind and no key holds a
      dot: the dot that starts the rest (or the `]` that closes an index)
      marks where the step ends. */
  lemma SegTextDecode(a: Seg, b: Seg, r1: string, r2: string)
    requires a.Key? == b.Key? && (a.Key? ==> '.' !in a.key && '.' !in b.key)
    requires (r1 == [] || r1[0] == '.') && (r2 == [] || r2[0] == '.')
    requires SegText(a) + r1 == SegText(b) + r2
    ensures a == b && r1 == r2
  {
    if a.Key? {
      KeyTextDecode(a.key, b.key, r1, r2);
    } else {
      IndexTextDecode(a.index, b.index, r1, r2);
    }
  }

  lemma KeyTextDecode(ka: string, kb: string, r1: string, r2: string)
    requires '.' !in ka && '.' !in kb
    requires (r1 == [] || r1[0] == '.') && (r2 == [] || r2[0] == '.')
    requires "." + ka + r1 == "." + kb + r2
    ensures ka == kb && r1 == r2
  {
    assert "." + ka + r1 == "." + (ka + r1) && "." + kb + r2 == "." + (kb + r2);
    DropPrefix(".", ka + r1, kb + r2);
    SplitAt(ka, kb, r1, r2, '.');
  }

  lemma IndexTextDecode(i: nat, j: nat, r1: string, r2: string)
    requires ".[" + NatToString(i) + "]" + r1 == ".[" + NatToString(j) + "]" + r2
    ensures i == j && r1 == r2
  {
    assert ']' !in NatToString(i) && ']' !in NatToString(j);
    BracketedDecode(NatToString(i), NatToString(j), r1, r2);
    NatToStringInjective(i, j);
  }

  lemma BracketedDecode(di: string, dj: string, r1: string, r2: string)
    requires ']' !in di && ']' !in dj
    requires ".[" + di + "]" + r1 == ".[" + dj + "]" + r2
    ensures di == dj && r1 == r2
  {
    var ri, rj := "]" + r1, "]" + r2;
    assert ".[" + di + "]" + r1 == ".[" + (di + ri);
    assert ".[" + dj + "]" + r2 == ".[" + (dj + rj);
    DropPrefix(".[", di + ri, dj + rj);
    SplitAt(di, dj, ri, rj, ']');
    DropPrefix("]", r1, r2);
  }

  lemma DropPrefix(p: string, a: string, b: string)
    requires p + a == p + b
    ensures a == b
  {
    assert a == (p + a)[|p|..];
  }

  const FunctionPrefix := "<<Function '"
  const ReferencePrefix := "<<Circular reference to '"
  const LabelSuffix := "'>>"

  /** `getFunctionLabel` (src/index.ts:22-24): the name between the
      function prefix and the closing `'>>`. */
  function FunctionLabel(name: string): (text: string)
    ensures |text| == |FunctionPrefix| + |name| + |LabelSuffix|
    ensures text[..|FunctionPrefix|] == FunctionPrefix
    ensures text[|FunctionPrefix|..|text| - |LabelSuffix|] == name
    ensures text[|text| - |LabelSuffix|..] == LabelSuffix
  {
    FunctionPrefix + name + LabelSuffix
  }

  /** `getReferenceLabel` (src/index.ts:18-20): the path between the
      circular-reference prefix and the closing `'>>`. */
  function ReferenceLabel(path: string): (text: string)
    ensures |text| == |ReferencePrefix| + |path| + |LabelSuffix|
    ensures text[..|ReferencePrefix|] == ReferencePrefix
    ensures text[|ReferencePrefix|..|text| - |LabelSuffix|] == path
    ensures text[|text| - |LabelSuffix|..] == LabelSuffix
  {
    ReferencePrefix + path + LabelSuffix
  }

  /** The name can be read back from a function label. */
  lemma FunctionLabelInjective(a: string, b: string)
    requires FunctionLabel(a) == FunctionLabel(b)
    ensures a == b
  {
    var la := FunctionLabel(a);
    assert a == la[|FunctionPrefix|..|la| - |LabelSuffix|];
  }

  /** The path can be read back from a circular-reference label. */
  lemma ReferenceLabelInjective(a: string, b: string)
    requires ReferenceLabel(a) == ReferenceLabel(b)
    ensures a == b
  {
    var la := ReferenceLabel(a);
    assert a == la[|ReferencePrefix|..|la| - |LabelSuffix|];
  }

  /** A function label never reads as a circular-reference label. */
  lemma LabelsDistinct(name: string, path: string)
    ensures FunctionLabel(name) != ReferenceLabel(path)
  {
    assert FunctionLabel(name)[2] == 'F';
    assert ReferenceLabel(path)[2] == 'C';
  }
}
