/** The address glob matcher of cmd/kl/cmd_diff.go:204.  Characters stand for the bytes
    the Go code indexes. */
module Glob {

  predicate DotFree(s: string) {
    '.' !in s
  }

  /** Length of the star token at the front of `p`: `**` is taken as one token. */
  function StarWidth(p: string): nat
    requires p != [] && p[0] == '*'
  {
    if |p| > 1 && p[1] == '*' then 2 else 1
  }

  /** The language of a pattern: `*` a dot-free run, `**` any run, `?` one non-dot
      character, every other character itself. */
  ghost predicate Matches(p: string, a: string)
    decreases |p|
  {
    if p == [] then a == []
    else if p[0] == '*' then
      exists k :: 0 <= k <= |a| && (StarWidth(p) == 2 || DotFree(a[..k])) && Matches(p[StarWidth(p)..], a[k..])
    else
      a != [] && Single(p[0], a[0]) && Matches(p[1..], a[1..])
  }

  /** A non-star pattern character accepts an address character. */
  predicate Single(c: char, x: char) {
    if c == '?' then x != '.' else c == x
  }

  // ------------------------------------------------------------ the language

  lemma EmptyMatches(a: string)
    ensures Matches("", a) <==> a == ""
  {
  }

  /** A token that is no star matches one character: `?` any but a dot. */
  lemma CharMatches(c: char, a: string)
    requires c != '*'
    ensures Matches([c], a) <==> |a| == 1 && if c == '?' then a[0] != '.' else a[0] == c
  {
    assert [c][1..] == "";
    if a != "" { EmptyMatches(a[1..]); }
  }

  /** One star matches what has no dot, two match anything. */
  lemma StarMatchesRuns(a: string)
    ensures Matches("*", a) <==> '.' !in a
    ensures Matches("**", a)
  {
    assert "*"[1..] == "" && "**"[2..] == "" && StarWidth("*") == 1 && StarWidth("**") == 2;
    assert a[|a|..] == "" && a[..|a|] == a;
    if Matches("*", a) {
      var k := RunOf("*", a);
      EmptyMatches(a[k..]);
      assert k == |a|;
    }
    if DotFree(a) {
      RunMatches("*", a, |a|);
    }
    RunMatches("**", a, |a|);
  }

  predicate Seamless(p: string, q: string) {
    p == "" || q == "" || p[|p| - 1] != '*' || q[0] != '*'
  }

  lemma TailOfBoth(p: string, q: string)
    requires p != "" && p[0] == '*' && Seamless(p, q)
    ensures StarWidth(p + q) == StarWidth(p) <= |p| && (p + q)[StarWidth(p)..] == p[StarWidth(p)..] + q
    ensures Seamless(p[StarWidth(p)..], q)
  {
  }

  lemma RunThen(p: string, run: string, rest: string)
    requires p != "" && p[0] == '*' && (StarWidth(p) == 2 || DotFree(run)) && Matches(p[StarWidth(p)..], rest)
    ensures Matches(p, run + rest)
  {
    assert (run + rest)[..|run|] == run && (run + rest)[|run|..] == rest;
    RunMatches(p, run + rest, |run|);
  }

  lemma CharThen(p: string, c: char, rest: string)
    requires p != "" && p[0] != '*' && Single(p[0], c) && Matches(p[1..], rest)
    ensures Matches(p, [c] + rest)
  {
    assert ([c] + rest)[1..] == rest;
  }

  lemma {:induction false} Joined(p: string, q: string, x: string, y: string)
    requires Seamless(p, q) && Matches(p, x) && Matches(q, y)
    ensures Matches(p + q, x + y)
    decreases |p|, 1
  {
    if p == "" {
      EmptyMatches(x);
      assert p + q == q && x + y == y;
    } else if p[0] == '*' {
      StarJoined(p, q, x, y);
    } else {
      CharJoined(p, q, x, y);
    }
  }

  lemma RunThenBoth(p: string, q: string, run: string, rest: string)
    requires p != "" && p[0] == '*' && Seamless(p, q) && (StarWidth(p) == 2 || DotFree(run))
    requires StarWidth(p) <= |p| && Matches(p[StarWidth(p)..] + q, rest)
    ensures Matches(p + q, run + rest)
  {
    TailOfBoth(p, q);
    RunThen(p + q, run, rest);
  }

  lemma RunOfBoth(p: string, q: string, a: string) returns (k: nat)
    requires p != "" && p[0] == '*' && Seamless(p, q) && Matches(p + q, a)
    ensures k <= |a| && StarWidth(p) <= |p| && Seamless(p[StarWidth(p)..], q)
    ensures (StarWidth(p) == 2 || DotFree(a[..k])) && Matches(p[StarWidth(p)..] + q, a[k..])
  {
    TailOfBoth(p, q);
    k := RunOf(p + q, a);
  }

  lemma {:induction false} StarJoined(p: string, q: string, x: string, y: string)
    requires p != "" && p[0] == '*' && Seamless(p, q) && Matches(p, x) && Matches(q, y)
    ensures Matches(p + q, x + y)
    decreases |p|, 0
  {
    var k := RunOf(p, x);
    TailOfBoth(p, q);
    Joined(p[StarWidth(p)..], q, x[k..], y);
    RunThenBoth(p, q, x[..k], x[k..] + y);
    assert x[..k] + (x[k..] + y) == x + y;
  }

  lemma {:induction false} CharJoined(p: string, q: string, x: string, y: string)
    requires p != "" && p[0] != '*' && Seamless(p, q) && Matches(p, x) && Matches(q, y)
    ensures Matches(p + q, x + y)
    decreases |p|, 0
  {
    Joined(p[1..], q, x[1..], y);
    assert (p + q)[1..] == p[1..] + q && [x[0]] + (x[1..] + y) == x + y;
    CharThen(p + q, x[0], x[1..] + y);
  }

  lemma {:induction false} Parted(p: string, q: string, a: string) returns (x: string, y: string)
    requires Seamless(p, q) && Matches(p + q, a)
    ensures a == x + y && Matches(p, x) && Matches(q, y)
    decreases |p|, 1
  {
    if p == "" {
      x, y := "", a;
      assert p + q == q && x + y == a;
    } else if p[0] == '*' {
      x, y := StarParted(p, q, a);
    } else {
      x, y := CharParted(p, q, a);
    }
  }

  lemma {:induction false} StarParted(p: string, q: string, a: string) returns (x: string, y: string)
    requires p != "" && p[0] == '*' && Seamless(p, q) && Matches(p + q, a)
    ensures a == x + y && Matches(p, x) && Matches(q, y)
    decreases |p|, 0
  {
    var k := RunOfBoth(p, q, a);
    var z;
    z, y := Parted(p[StarWidth(p)..], q, a[k..]);
    x := a[..k] + z;
    RunThen(p, a[..k], z);
    assert a == a[..k] + a[k..] == x + y;
  }

  lemma {:induction false} CharParted(p: string, q: string, a: string) returns (x: string, y: string)
    requires p != "" && p[0] != '*' && Seamless(p, q) && Matches(p + q, a)
    ensures a == x + y && Matches(p, x) && Matches(q, y)
    decreases |p|, 0
  {
    assert (p + q)[1..] == p[1..] + q;
    var z;
    z, y := Parted(p[1..], q, a[1..]);
    x := [a[0]] + z;
    CharThen(p, a[0], z);
    assert a == x + y;
  }

  /** Patterns one after the other match addresses one after the other, unless the seam would
      join two stars into one token. */
  lemma ConcatMatches(p: string, q: string, a: string)
    requires Seamless(p, q)
    ensures Matches(p + q, a) <==> exists x, y :: a == x + y && Matches(p, x) && Matches(q, y)
  {
    if Matches(p + q, a) {
      var x, y := Parted(p, q, a);
    }
    if x, y :| a == x + y && Matches(p, x) && Matches(q, y) {
      Joined(p, q, x, y);
    }
  }

  /** A star of the pattern that has been passed: `from` is where its run began, `ai` where
      the run ends now, `pi` the pattern position behind the star. */
  datatype Frame = Frame(pi: nat, ai: nat, recur: bool, ghost from: nat)

  /** `p[i..]` against `a[j..]`. */
  ghost predicate M(p: string, a: string, i: nat, j: nat)
    requires i <= |p| && j <= |a|
  {
    Matches(p[i..], a[j..])
  }

  /** From `(i, j)` to `(i', j')` over single characters only. */
  ghost predicate Literal(p: string, a: string, i: nat, j: nat, i': nat, j': nat) {
    && i <= i' <= |p| && j <= j' <= |a| && i' - i == j' - j
    && forall k :: i <= k < i' ==> p[k] != '*' && Single(p[k], a[j + (k - i)])
  }

  ghost predicate FrameOk(p: string, a: string, fr: Frame) {
    && fr.from <= fr.ai <= |a| && fr.pi <= |p|
    && (fr.recur || DotFree(a[fr.from..fr.ai]))
    && forall t :: fr.from <= t < fr.ai ==> !M(p, a, fr.pi, t)
  }

  /** The star of `fr` starts at pattern position `i`. */
  ghost predicate StarAt(p: string, i: nat, fr: Frame) {
    && i < |p| && p[i] == '*'
    && fr.pi == i + StarWidth(p[i..])
    && fr.recur == (StarWidth(p[i..]) == 2)
  }

  /** `fr` is reached from `(i, j)` over single characters and then its star. */
  ghost predicate Linked(p: string, a: string, i: nat, j: nat, fr: Frame) {
    exists q: nat :: Literal(p, a, i, j, q, fr.from) && StarAt(p, q, fr)
  }

  function PI(s: seq<Frame>): nat { if s == [] then 0 else s[|s| - 1].pi }
  function AI(s: seq<Frame>): nat { if s == [] then 0 else s[|s| - 1].ai }

  /** The stack is a chain of passed stars; every shorter run of each star has failed. */
  ghost predicate Chain(p: string, a: string, s: seq<Frame>) {
    s != [] ==>
      var front, top := s[..|s| - 1], s[|s| - 1];
      Chain(p, a, front) && FrameOk(p, a, top) && Linked(p, a, PI(front), AI(front), top)
  }

  // ------------------------------------------------------------ one step

  lemma {:induction false} LiteralMatches(p: string, a: string, i: nat, j: nat, i': nat, j': nat)
    requires Literal(p, a, i, j, i', j')
    ensures M(p, a, i, j) <==> M(p, a, i', j')
    decreases i' - i
  {
    if i < i' {
      assert p[i] != '*' && Single(p[i], a[j + (i - i)]);
      assert p[i..][1..] == p[i + 1..] && a[j..][1..] == a[j + 1..];
      forall k | i + 1 <= k < i' ensures p[k] != '*' && Single(p[k], a[j + 1 + (k - (i + 1))]) {
        assert j + 1 + (k - (i + 1)) == j + (k - i);
      }
      LiteralMatches(p, a, i + 1, j + 1, i', j');
    }
  }

  /** What a star may match, in terms of positions. */
  lemma StarMatches(p: string, a: string, i: nat, j: nat, fr: Frame)
    requires j <= |a| && StarAt(p, i, fr)
    ensures fr.pi <= |p|
    ensures M(p, a, i, j) <==> exists t :: j <= t <= |a| && (fr.recur || DotFree(a[j..t])) && M(p, a, fr.pi, t)
  {
    if M(p, a, i, j) {
      var t := StarTakes(p, a, i, j, fr);
    }
    if t :| j <= t <= |a| && (fr.recur || DotFree(a[j..t])) && M(p, a, fr.pi, t) {
      StarMayTake(p, a, i, j, fr, t);
    }
  }

  lemma StarTakes(p: string, a: string, i: nat, j: nat, fr: Frame) returns (t: nat)
    requires j <= |a| && StarAt(p, i, fr) && M(p, a, i, j)
    ensures j <= t <= |a| && (fr.recur || DotFree(a[j..t])) && M(p, a, fr.pi, t)
  {
    var k := RunOf(p[i..], a[j..]);
    SliceOfSlice(p, i, StarWidth(p[i..]));
    SliceOfSlice(a, j, k);
    t := j + k;
  }

  /** The run a leading star takes. */
  lemma RunOf(q: string, b: string) returns (k: nat)
    requires q != "" && q[0] == '*' && Matches(q, b)
    ensures k <= |b| && StarWidth(q) <= |q|
    ensures (StarWidth(q) == 2 || DotFree(b[..k])) && Matches(q[StarWidth(q)..], b[k..])
  {
    k :| 0 <= k <= |b| && (StarWidth(q) == 2 || DotFree(b[..k])) && Matches(q[StarWidth(q)..], b[k..]);
  }

  lemma RunMatches(q: string, b: string, k: nat)
    requires q != "" && q[0] == '*' && k <= |b|
    requires (StarWidth(q) == 2 || DotFree(b[..k])) && Matches(q[StarWidth(q)..], b[k..])
    ensures Matches(q, b)
  {
  }

  lemma SliceOfSlice(s: string, j: nat, k: nat)
    requires j + k <= |s|
    ensures s[j..][..k] == s[j..j + k] && s[j..][k..] == s[j + k..]
  {
  }

  lemma StarMayTake(p: string, a: string, i: nat, j: nat, fr: Frame, t: nat)
    requires StarAt(p, i, fr) && j <= t <= |a| && (fr.recur || DotFree(a[j..t])) && M(p, a, fr.pi, t)
    ensures M(p, a, i, j)
  {
    SliceOfSlice(p, i, StarWidth(p[i..]));
    SliceOfSlice(a, j, t - j);
    RunMatches(p[i..], a[j..], t - j);
  }

  lemma DotBlocks(a: string, from: nat, at: nat, to: nat)
    requires from <= at < to <= |a| && a[at] == '.'
    ensures !DotFree(a[from..to])
  {
    assert a[from..to][at - from] == '.';
  }

  /** A frame whose current and larger runs all fail makes the frame below it fail. */
  lemma FrameFails(p: string, a: string, s: seq<Frame>)
    requires s != [] && Chain(p, a, s)
    requires !M(p, a, PI(s), AI(s))
    requires AI(s) == |a| || (!s[|s| - 1].recur && a[AI(s)] == '.')
    ensures var front := s[..|s| - 1];
            && Chain(p, a, front) && PI(front) <= |p| && AI(front) <= |a|
            && !M(p, a, PI(front), AI(front))
  {
    var front, top := s[..|s| - 1], s[|s| - 1];
    var q: nat :| Literal(p, a, PI(front), AI(front), q, top.from) && StarAt(p, q, top);
    StarMatches(p, a, q, top.from, top);
    forall t | top.from <= t <= |a| && (top.recur || DotFree(a[top.from..t])) ensures !M(p, a, top.pi, t) {
      if t > top.ai && AI(s) < |a| && !top.recur {
        DotBlocks(a, top.from, top.ai, t);
      }
    }
    LiteralMatches(p, a, PI(front), AI(front), q, top.from);
  }

  // ------------------------------------------------ the exit without backtracking

  predicate AllStars(p: string) {
    forall k :: 0 <= k < |p| ==> p[k] == '*'
  }

  lemma {:induction false} EmptyAddress(p: string)
    ensures Matches(p, []) <==> AllStars(p)
    decreases |p|
  {
    if p != [] && p[0] == '*' {
      var w := StarWidth(p);
      EmptyAddress(p[w..]);
      var e: string := [];
      assert e[..0] == [] && e[0..] == [];
      assert Matches(p, []) <==> Matches(p[w..], []);
      if AllStars(p[w..]) {
        forall k | 0 <= k < |p| ensures p[k] == '*' {
          if k >= w { assert p[k] == p[w..][k - w]; }
        }
      }
    } else if p != [] {
      assert p[0] != '*';
    }
  }

  /** Single characters consume one address character each. */
  lemma {:induction false} LiteralConsumes(p: string, a: string, i: nat, i': nat, j: nat)
    requires i <= i' <= |p| && j <= |a| && M(p, a, i, j)
    requires forall k :: i <= k < i' ==> p[k] != '*'
    ensures j + (i' - i) <= |a| && M(p, a, i', j + (i' - i))
    decreases i' - i
  {
    if i < i' {
      assert p[i] != '*' && p[i..][1..] == p[i + 1..] && a[j..][1..] == a[j + 1..];
      LiteralConsumes(p, a, i + 1, i', j + 1);
    }
  }

  /** No run of `fr`, from its current end upwards, leads to a match. */
  ghost predicate RunsFail(p: string, a: string, fr: Frame) {
    fr.pi <= |p| && forall t :: fr.ai <= t <= |a| ==> !M(p, a, fr.pi, t)
  }

  /** The last star of the stack: from its current end on, too few characters are left. */
  lemma TopRunFails(p: string, a: string, fr: Frame, pi: nat, t: nat)
    requires fr.pi <= pi <= |p| && !AllStars(p[pi..]) && Literal(p, a, fr.pi, fr.ai, pi, |a|)
    requires fr.ai <= t <= |a|
    ensures !M(p, a, fr.pi, t)
  {
    if M(p, a, fr.pi, t) {
      LiteralConsumes(p, a, fr.pi, pi, t);
      assert a[|a|..] == [];
      EmptyAddress(p[pi..]);
    }
  }

  /** A lower star: its longer runs start the next star later, where either a longer run of
      the next star fails, or a shorter one has already failed. */
  lemma LowerRunFails(p: string, a: string, fr: Frame, q: nat, nx: Frame, t: nat)
    requires Literal(p, a, fr.pi, fr.ai, q, nx.from) && StarAt(p, q, nx) && FrameOk(p, a, nx)
    requires RunsFail(p, a, nx)
    requires fr.ai <= t <= |a|
    ensures !M(p, a, fr.pi, t)
  {
    if M(p, a, fr.pi, t) {
      LiteralConsumes(p, a, fr.pi, q, t);
      StarMatches(p, a, q, t + (q - fr.pi), nx);
    }
  }

  /** The exchange argument.  If a path has used up the address at a pattern position that
      still wants a character, then no run of any star on the stack, from its current end
      upwards, leads to a match. */
  lemma {:induction false} LongerRunsFail(p: string, a: string, s: seq<Frame>, k: nat, pi: nat)
    requires Chain(p, a, s) && 0 < k <= |s|
    requires pi <= |p| && !AllStars(p[pi..]) && Literal(p, a, PI(s), AI(s), pi, |a|)
    ensures RunsFail(p, a, s[k - 1])
    decreases |s| - k
  {
    ChainPrefix(p, a, s, k);
    var fr := s[k - 1];
    if k == |s| {
      forall t | fr.ai <= t <= |a| ensures !M(p, a, fr.pi, t) {
        TopRunFails(p, a, fr, pi, t);
      }
    } else {
      LongerRunsFail(p, a, s, k + 1, pi);
      ChainPrefix(p, a, s, k + 1);
      assert s[..k][k - 1] == fr;
      var q: nat :| Literal(p, a, fr.pi, fr.ai, q, s[k].from) && StarAt(p, q, s[k]);
      forall t | fr.ai <= t <= |a| ensures !M(p, a, fr.pi, t) {
        LowerRunFails(p, a, fr, q, s[k], t);
      }
    }
  }

  lemma {:induction false} ChainPrefix(p: string, a: string, s: seq<Frame>, k: nat)
    requires Chain(p, a, s) && 0 < k <= |s|
    ensures Chain(p, a, s[..k]) && FrameOk(p, a, s[k - 1])
    ensures Linked(p, a, PI(s[..k - 1]), AI(s[..k - 1]), s[k - 1])
    decreases |s|
  {
    if k < |s| {
      ChainPrefix(p, a, s[..|s| - 1], k);
      assert s[..|s| - 1][..k] == s[..k] && s[..|s| - 1][..k - 1] == s[..k - 1];
    } else {
      assert s[..k] == s;
    }
  }

  /** Nothing below the stack can match once the address is used up in vain. */
  lemma {:induction false} ExitIsFinal(p: string, a: string, s: seq<Frame>, pi: nat)
    requires Chain(p, a, s)
    requires pi <= |p| && !AllStars(p[pi..]) && Literal(p, a, PI(s), AI(s), pi, |a|)
    ensures !Matches(p, a)
  {
    assert p[0..] == p && a[0..] == a;
    if M(p, a, 0, 0) {
      var q: nat := if s == [] then pi else LinkPosition(p, a, s);
      if s == [] {
        LiteralMatches(p, a, 0, 0, pi, |a|);
        assert a[|a|..] == [];
        EmptyAddress(p[pi..]);
      } else {
        LiteralMatches(p, a, 0, 0, q, s[0].from);
        StarMatches(p, a, q, s[0].from, s[0]);
        var u :| s[0].from <= u <= |a| && (s[0].recur || DotFree(a[s[0].from..u])) && M(p, a, s[0].pi, u);
        ChainPrefix(p, a, s, 1);
        LongerRunsFail(p, a, s, 1, pi);
      }
    }
  }

  ghost function LinkPosition(p: string, a: string, s: seq<Frame>): (q: nat)
    requires s != [] && Chain(p, a, s)
    ensures Literal(p, a, 0, 0, q, s[0].from) && StarAt(p, q, s[0])
  {
    ChainPrefix(p, a, s, 1);
    assert s[..0] == [];
    var q: nat :| Literal(p, a, PI([]), AI([]), q, s[0].from) && StarAt(p, q, s[0]);
    q
  }

  // --------------------------------------------------------------- termination

  /** An upper bound on the steps spent on a pattern suffix of length `m` when the address
      has `n` characters. */
  function Budget(m: nat, n: nat): nat
    decreases m, 0
  {
    if m == 0 then 1 else 1 + Tries(n + 1, m - 1, n)
  }

  /** The same for `k` attempts at that suffix. */
  function Tries(k: nat, m: nat, n: nat): nat
    decreases m, k + 1
  {
    if k == 0 then 0 else Tries(k - 1, m, n) + Budget(m, n) + 1
  }

  lemma {:induction false} TriesGrow(k: nat, k': nat, m: nat, n: nat)
    requires k <= k'
    ensures Tries(k, m, n) <= Tries(k', m, n)
    decreases k'
  {
    if k < k' {
      TriesGrow(k, k' - 1, m, n);
    }
  }

  lemma {:induction false} BudgetGrows(m: nat, m': nat, n: nat)
    requires m < m'
    ensures Budget(m', n) > Tries(n + 1, m, n)
    ensures Budget(m', n) > Budget(m, n)
    decreases m'
  {
    TriesGrow(1, n + 1, m, n);
    assert Tries(1, m, n) == Tries(0, m, n) + Budget(m, n) + 1;
    if m < m' - 1 {
      BudgetGrows(m, m' - 1, n);
      TriesGrow(1, n + 1, m' - 1, n);
      assert Tries(1, m' - 1, n) == Tries(0, m' - 1, n) + Budget(m' - 1, n) + 1;
    }
  }

  function Minus(x: nat, y: nat): nat {
    if x < y then 0 else x - y
  }

  /** Work left on the star stack: the longer runs each star may still try. */
  function StackWork(p: string, a: string, s: seq<Frame>): nat {
    if s == [] then 0
    else
      var top := s[|s| - 1];
      StackWork(p, a, s[..|s| - 1]) + Tries(Minus(|a|, top.ai), Minus(|p|, top.pi), |a|)
  }

  // -------------------------------------------------------------------- matcher

  /** The cursors stand behind single characters matched since the top star's run. */
  ghost predicate Searching(p: string, a: string, s: seq<Frame>, pi: nat, ai: nat) {
    Chain(p, a, s) && Literal(p, a, PI(s), AI(s), pi, ai)
  }

  function Work(p: string, a: string, s: seq<Frame>, pi: nat): nat {
    Budget(Minus(|p|, pi), |a|) + StackWork(p, a, s)
  }

  /** `globMatch`: true exactly on the language of the pattern, on every input. */
  method GlobMatch(pattern: string, addr: string) returns (r: bool)
    ensures r <==> Matches(pattern, addr)
  {
    var stars: seq<Frame> := [];
    var pi: nat, ai: nat := 0, 0;
    while ai < |addr|
      invariant Searching(pattern, addr, stars, pi, ai)
      decreases Work(pattern, addr, stars, pi)
    {
      var matched := false;
      if pi < |pattern| {
        if pattern[pi] == '*' {
          var recur := pi + 1 < |pattern| && pattern[pi + 1] == '*';
          var step := if recur then 2 else 1;
          var fr := Frame(pi + step, ai, recur, ai);
          Push(pattern, addr, stars, pi, ai, fr);
          stars := stars + [fr];
          pi := pi + step;
          matched := true;
        } else if Single(pattern[pi], addr[ai]) {
          Advance(pattern, addr, stars, pi, ai);
          pi := pi + 1;
          ai := ai + 1;
          matched := true;
        }
      }
      if !matched {
        MismatchFails(pattern, addr, stars, pi, ai);
        var found, stars' := Backtrack(pattern, addr, stars);
        if !found {
          return false;
        }
        stars := stars';
        pi, ai := stars[|stars| - 1].pi, stars[|stars| - 1].ai;
      }
    }
    r := RestIsStars(pattern, pi);
    Verdict(pattern, addr, stars, pi);
  }

  lemma Verdict(p: string, a: string, s: seq<Frame>, pi: nat)
    requires Searching(p, a, s, pi, |a|)
    ensures Matches(p, a) <==> AllStars(p[pi..])
  {
    if AllStars(p[pi..]) {
      assert a[|a|..] == [];
      EmptyAddress(p[pi..]);
      LiteralMatches(p, a, PI(s), AI(s), pi, |a|);
      MatchClimbs(p, a, s);
    } else {
      ExitIsFinal(p, a, s, pi);
    }
  }

  lemma Push(p: string, a: string, s: seq<Frame>, pi: nat, ai: nat, fr: Frame)
    requires Searching(p, a, s, pi, ai) && pi < |p| && p[pi] == '*'
    requires var recur := pi + 1 < |p| && p[pi + 1] == '*';
             fr == Frame(pi + (if recur then 2 else 1), ai, recur, ai)
    ensures Searching(p, a, s + [fr], fr.pi, ai)
    ensures Work(p, a, s + [fr], fr.pi) < Work(p, a, s, pi)
  {
    assert StarAt(p, pi, fr);
    PushKeepsChain(p, a, s, pi, ai, fr);
    PushTakesBudget(p, a, s, pi, fr);
  }

  lemma Advance(p: string, a: string, s: seq<Frame>, pi: nat, ai: nat)
    requires Searching(p, a, s, pi, ai) && pi < |p| && ai < |a| && p[pi] != '*' && Single(p[pi], a[ai])
    ensures Searching(p, a, s, pi + 1, ai + 1)
    ensures Work(p, a, s, pi + 1) < Work(p, a, s, pi)
  {
    LiteralExtends(p, a, PI(s), AI(s), pi, ai);
    BudgetGrows(|p| - pi - 1, |p| - pi, |a|);
  }

  lemma LiteralExtends(p: string, a: string, i: nat, j: nat, i': nat, j': nat)
    requires Literal(p, a, i, j, i', j') && i' < |p| && j' < |a| && p[i'] != '*' && Single(p[i'], a[j'])
    ensures Literal(p, a, i, j, i' + 1, j' + 1)
  {
  }

  lemma PushKeepsChain(p: string, a: string, s: seq<Frame>, pi: nat, ai: nat, fr: Frame)
    requires Chain(p, a, s) && Literal(p, a, PI(s), AI(s), pi, ai)
    requires StarAt(p, pi, fr) && fr.from == fr.ai == ai <= |a|
    ensures Chain(p, a, s + [fr])
  {
    assert (s + [fr])[..|s|] == s;
    assert a[ai..ai] == [];
  }

  lemma PushTakesBudget(p: string, a: string, s: seq<Frame>, pi: nat, fr: Frame)
    requires pi < fr.pi <= |p| && fr.ai <= |a|
    ensures Budget(|p| - fr.pi, |a|) + StackWork(p, a, s + [fr]) < Budget(|p| - pi, |a|) + StackWork(p, a, s)
  {
    assert (s + [fr])[..|s|] == s;
    BudgetGrows(|p| - fr.pi, |p| - pi, |a|);
    TriesGrow(|a| - fr.ai + 1, |a| + 1, |p| - fr.pi, |a|);
  }

  /** A mismatch at the cursors fails the top of the stack as it stands. */
  lemma MismatchFails(p: string, a: string, s: seq<Frame>, pi: nat, ai: nat)
    requires Literal(p, a, PI(s), AI(s), pi, ai) && ai < |a|
    requires pi == |p| || (p[pi] != '*' && !Single(p[pi], a[ai]))
    ensures !M(p, a, PI(s), AI(s))
  {
    LiteralMatches(p, a, PI(s), AI(s), pi, ai);
  }

  /** A match at the top of the stack is a match of the whole. */
  lemma {:induction false} MatchClimbs(p: string, a: string, s: seq<Frame>)
    requires Chain(p, a, s) && PI(s) <= |p| && AI(s) <= |a| && M(p, a, PI(s), AI(s))
    ensures Matches(p, a)
    decreases |s|
  {
    if s == [] {
      assert p[0..] == p && a[0..] == a;
    } else {
      var front, top := s[..|s| - 1], s[|s| - 1];
      var q: nat :| Literal(p, a, PI(front), AI(front), q, top.from) && StarAt(p, q, top);
      StarMatches(p, a, q, top.from, top);
      LiteralMatches(p, a, PI(front), AI(front), q, top.from);
      MatchClimbs(p, a, front);
    }
  }

  /** cmd_diff.go:248-265: let the most recent star that can grow eat one more character;
      when none is left there is no match. */
  method Backtrack(pattern: string, addr: string, stars: seq<Frame>) returns (found: bool, s: seq<Frame>)
    requires Chain(pattern, addr, stars)
    requires PI(stars) <= |pattern| && AI(stars) <= |addr| && !M(pattern, addr, PI(stars), AI(stars))
    ensures !found ==> !Matches(pattern, addr)
    ensures found ==> s != [] && Searching(pattern, addr, s, PI(s), AI(s))
    ensures found ==>
              Budget(Minus(|pattern|, PI(s)), |addr|) + StackWork(pattern, addr, s) < StackWork(pattern, addr, stars)
  {
    s := stars;
    while s != []
      invariant Chain(pattern, addr, s)
      invariant PI(s) <= |pattern| && AI(s) <= |addr| && !M(pattern, addr, PI(s), AI(s))
      invariant StackWork(pattern, addr, s) <= StackWork(pattern, addr, stars)
      decreases |s|
    {
      var top := s[|s| - 1];
      if top.ai >= |addr| || (!top.recur && addr[top.ai] == '.') {
        FrameFails(pattern, addr, s);
        s := s[..|s| - 1];
      } else {
        var grown := Frame(top.pi, top.ai + 1, top.recur, top.from);
        GrowKeepsChain(pattern, addr, s, grown);
        GrowTakesWork(pattern, addr, s, grown);
        s := s[..|s| - 1] + [grown];
        return true, s;
      }
    }
    assert pattern[0..] == pattern && addr[0..] == addr;
    return false, s;
  }

  lemma GrowKeepsChain(p: string, a: string, s: seq<Frame>, grown: Frame)
    requires s != [] && Chain(p, a, s) && !M(p, a, PI(s), AI(s))
    requires grown == s[|s| - 1].(ai := AI(s) + 1)
    requires AI(s) < |a| && (grown.recur || a[AI(s)] != '.')
    ensures Chain(p, a, s[..|s| - 1] + [grown])
  {
    var front, top := s[..|s| - 1], s[|s| - 1];
    assert (front + [grown])[..|front|] == front;
    FrameGrows(p, a, top, grown);
    assert Linked(p, a, PI(front), AI(front), grown) by {
      var q: nat :| Literal(p, a, PI(front), AI(front), q, top.from) && StarAt(p, q, top);
      assert StarAt(p, q, grown);
    }
  }

  lemma FrameGrows(p: string, a: string, top: Frame, grown: Frame)
    requires FrameOk(p, a, top) && top.ai < |a| && grown == top.(ai := top.ai + 1)
    requires !M(p, a, top.pi, top.ai) && (top.recur || a[top.ai] != '.')
    ensures FrameOk(p, a, grown)
  {
    assert a[top.from..grown.ai] == a[top.from..top.ai] + [a[top.ai]];
  }

  lemma GrowTakesWork(p: string, a: string, s: seq<Frame>, grown: Frame)
    requires s != [] && PI(s) <= |p|
    requires grown == s[|s| - 1].(ai := AI(s) + 1) && AI(s) < |a|
    ensures Budget(|p| - grown.pi, |a|) + StackWork(p, a, s[..|s| - 1] + [grown]) < StackWork(p, a, s)
  {
    var front, top := s[..|s| - 1], s[|s| - 1];
    assert (front + [grown])[..|front|] == front;
  }

  /** cmd_diff.go:267-272. */
  method RestIsStars(pattern: string, start: nat) returns (r: bool)
    requires start <= |pattern|
    ensures r <==> AllStars(pattern[start..])
  {
    var pi := start;
    while pi < |pattern|
      invariant start <= pi <= |pattern|
      invariant forall k :: start <= k < pi ==> pattern[k] == '*'
    {
      if pattern[pi] != '*' {
        assert pattern[start..][pi - start] != '*';
        return false;
      }
      pi := pi + 1;
    }
    return true;
  }
}
