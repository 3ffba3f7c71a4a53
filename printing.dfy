/** Text assembly shared by the JSON binding generator: printf-style templates,
    the decimal rendering of `%d`, and the mutable printer (`default_printer`)
    whose buffer every template fill appends to. */
module Printing {

  /** A printf format, cut at its conversion specifications: the literal runs
      in order, one more than there are conversions (a format is never empty). Each `%s` or `%d` between
      two runs consumes the next argument (a `%d` argument is passed already
      rendered by `IntText`). */
  type Template = seq<string>

  /** The number of conversion specifications in a format. */
  function Holes(t: Template): nat
  {
    if t == [] then 0 else |t| - 1
  }

  /** The literal characters of the runs `t[i..]`. */
  function LiteralLength(t: Template, i: nat): nat
    requires i <= |t|
    decreases |t| - i
  {
    if i == |t| then 0 else |t[i]| + LiteralLength(t, i + 1)
  }

  /** The total length of the arguments `args[i..k]`. */
  function ArgsLength(args: seq<string>, i: nat, k: nat): nat
    requires i <= k <= |args|
    decreases k - i
  {
    if i == k then 0 else |args[i]| + ArgsLength(args, i + 1, k)
  }

  /** What `printf(format, args...)` prints: every conversion replaced, left to
      right, by the next argument. C reads past the supplied arguments when a
      format has more conversions than arguments (undefined behaviour), so the
      caller must supply at least `Holes(t)` of them; surplus arguments are
      ignored, as in C. */
  function Render(t: Template, args: seq<string>): string
    requires t != [] && Holes(t) <= |args|
  {
    RenderFrom(t, args, 0)
  }

  /** The text printed from run `i` of the format on. */
  function RenderFrom(t: Template, args: seq<string>, i: nat): string
    requires i < |t| && Holes(t) <= |args|
    decreases |args| + |t| - i
  {
    if i == |t| - 1 then t[i] else t[i] + (args[i] + RenderFrom(t, args, i + 1))
  }

  /** The printed text is the format's literal text plus the consumed arguments. */
  lemma {:induction false} RenderLength(t: Template, args: seq<string>)
    requires t != [] && Holes(t) <= |args|
    ensures |Render(t, args)| == LiteralLength(t, 0) + ArgsLength(args, 0, Holes(t))
  {
    RenderFromLength(t, args, 0);
  }

  lemma {:induction false} RenderFromLength(t: Template, args: seq<string>, i: nat)
    requires i < |t| && Holes(t) <= |args|
    ensures |RenderFrom(t, args, i)| == LiteralLength(t, i) + ArgsLength(args, i, Holes(t))
    decreases |t| - i
  {
    if i == |t| - 1 {
      assert LiteralLength(t, i + 1) == 0;
    } else {
      RenderFromLength(t, args, i + 1);
    }
  }

  /** Arguments past the last conversion never reach the text. */
  lemma RenderIgnoresSurplus(t: Template, args: seq<string>, extra: seq<string>)
    requires t != [] && Holes(t) <= |args|
    ensures Render(t, args + extra) == Render(t, args)
  {
    RenderFromIgnoresSurplus(t, args, extra, 0);
  }

  lemma {:induction false} RenderFromIgnoresSurplus(t: Template, args: seq<string>, extra: seq<string>, i: nat)
    requires i < |t| && Holes(t) <= |args|
    ensures RenderFrom(t, args + extra, i) == RenderFrom(t, args, i)
    decreases |t| - i
  {
    if i < |t| - 1 {
      RenderFromIgnoresSurplus(t, args, extra, i + 1);
    }
  }

  /** Regrouping appended text; stated once so that proofs about long
      literal texts need not re-derive it element by element. */
  lemma AppendAssoc(a: string, b: string, c: string)
    ensures (a + b) + c == a + (b + c)
  {
  }

  /** `s` occurs somewhere in `text`. */
  ghost predicate Contains(text: string, s: string)
  {
    exists p, q :: text == p + s + q
  }

  lemma ContainsAt(p: string, s: string, q: string)
    ensures Contains(p + (s + q), s)
  {
    assert p + (s + q) == p + s + q;
  }

  lemma ContainsExtended(p: string, text: string, s: string)
    requires Contains(text, s)
    ensures Contains(p + text, s)
  {
    var a, b :| text == a + s + b;
    assert p + text == (p + a) + s + b;
  }

  /** Whatever the text printed from a later run contains, the text printed
      from an earlier run contains too. */
  lemma {:induction false} RenderFromContains(t: Template, args: seq<string>, i: nat, j: nat, s: string)
    requires i <= j < |t| && Holes(t) <= |args|
    requires Contains(RenderFrom(t, args, j), s)
    ensures Contains(RenderFrom(t, args, i), s)
    decreases j - i
  {
    if i < j {
      RenderFromContains(t, args, i + 1, j, s);
      ContainsExtended(t[i] + args[i], RenderFrom(t, args, i + 1), s);
      assert t[i] + (args[i] + RenderFrom(t, args, i + 1)) == (t[i] + args[i]) + RenderFrom(t, args, i + 1);
    }
  }

  /** Every argument a conversion consumes appears in the printed text. */
  lemma RenderShowsArg(t: Template, args: seq<string>, k: nat)
    requires t != [] && Holes(t) <= |args| && k < Holes(t)
    ensures Contains(Render(t, args), args[k])
  {
    ContainsAt(t[k], args[k], RenderFrom(t, args, k + 1));
    RenderFromContains(t, args, 0, k, args[k]);
  }

  // ---------------------------------------------------------------------------
  // `%d`: decimal rendering of C `int` values

  function Digit(d: nat): char
    requires d < 10
  {
    "0123456789"[d]
  }

  function DigitValue(c: char): nat
  {
    if '0' <= c <= '9' then (c as int - '0' as int) as nat else 0
  }

  predicate IsDigits(s: string)
  {
    forall i :: 0 <= i < |s| ==> '0' <= s[i] <= '9'
  }

  /** The decimal digits of `n`, most significant first, without leading zeros. */
  function NatText(n: nat): (r: string)
    ensures |r| >= 1 && IsDigits(r)
  {
    if n < 10 then [Digit(n)] else NatText(n / 10) + [Digit(n % 10)]
  }

  /** The reading of a digit string, the inverse of `NatText`. */
  function ParseNat(s: string): nat
  {
    if s == [] then 0 else 10 * ParseNat(s[..|s| - 1]) + DigitValue(s[|s| - 1])
  }

  lemma {:induction false} ParseNatText(n: nat)
    ensures ParseNat(NatText(n)) == n
  {
    var s := NatText(n);
    if n < 10 {
      assert s[..|s| - 1] == [];
    } else {
      assert s[..|s| - 1] == NatText(n / 10);
      ParseNatText(n / 10);
    }
  }

  /** Distinct numbers print differently: the basis of every name that the
      generator makes unique by a dimension number. */
  lemma NatTextInjective(m: nat, n: nat)
    requires NatText(m) == NatText(n)
    ensures m == n
  {
    ParseNatText(m);
    ParseNatText(n);
  }

  /** What `%d` prints for a C `int`. */
  function IntText(i: int): (r: string)
  {
    if i >= 0 then NatText(i) else "-" + NatText(-i)
  }

  /** A `uint32_t` passed where `%d` expects an `int`: the same 32 bits read as
      a two's-complement signed value. */
  function AsCInt(u: nat): (i: int)
    requires u < 0x1_0000_0000
    ensures -0x8000_0000 <= i < 0x8000_0000
    ensures i % 0x1_0000_0000 == u
  {
    if u < 0x8000_0000 then u else u - 0x1_0000_0000
  }

  // ---------------------------------------------------------------------------
  // The printer

  /** `sprintf_printer`: a growable text buffer that `reset` clears and
      `printf` appends a filled format to. */
  class SprintfPrinter {
    var buffer: string

    constructor ()
      ensures buffer == ""
    {
      buffer := "";
    }

    method Reset()
      modifies this
      ensures buffer == ""
    {
      buffer := "";
    }

    method Printf(format: Template, args: seq<string>)
      requires format != [] && Holes(format) <= |args|
      modifies this
      ensures buffer == old(buffer) + Render(format, args)
    {
      buffer := buffer + Render(format, args);
    }
  }
}
