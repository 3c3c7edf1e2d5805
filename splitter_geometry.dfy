/** The arithmetic of the split-pane layout manager
    (packages/app/client/src/ui/layout/splitter/index.tsx), as functions of
    plain numbers: what the `Splitter` component computes at initial layout,
    when its container is resized, on each step of a drag, for its
    size-change observer and when it renders. The `Splitter` module holds the
    component itself and proves its methods against these functions. */
module SplitterGeometry {
  import opened Wrappers
  import Decimal

  /** Size a rendered pane records for itself when its state size is falsy. */
  const DEFAULT_PANE_SIZE: real := 200.0
  /** Minimum of a pane that has no (or a zero) configured minimum. */
  const MIN_PANE_SIZE: real := 0.0
  /** The footprint of a splitter handle along the layout axis. */
  const SPLITTER_SIZE: real := 0.0

  /** `horizontal` stacks panes top to bottom; anything else (also an absent
      orientation) lays them out left to right. */
  datatype Orientation = Horizontal | Vertical

  /** What `getBoundingClientRect` reports, reduced to what the layout reads. */
  datatype Rect = Rect(left: real, top: real, width: real, height: real)

  /** The pointer position of a mouse event (`clientX`, `clientY`). */
  datatype Point = Point(x: real, y: real)

  /** Extent of a box along the layout axis. */
  function Extent(o: Orientation, r: Rect): real {
    if o == Horizontal then r.height else r.width
  }

  /** Leading edge of a box along the layout axis. */
  function LeadingEdge(o: Orientation, r: Rect): real {
    if o == Horizontal then r.top else r.left
  }

  /** Pointer coordinate along the layout axis. */
  function Coordinate(o: Orientation, p: Point): real {
    if o == Horizontal then p.y else p.x
  }

  function Max(a: real, b: real): real {
    if a >= b then a else b
  }

  /** Sum of a list of sizes. */
  function Sum(s: seq<real>): real {
    if s == [] then 0.0 else Sum(s[..|s| - 1]) + s[|s| - 1]
  }

  // ---------------------------------------------------------------------
  // Initial layout (calculateInitialPaneSizes)
  // ---------------------------------------------------------------------

  /** One value of the `initialSizes` configuration: a number of pixels, a
      string read as a percentage of the container, or a number that is NaN
      (passed in, or written back after a percentage failed to parse). A
      string is kept as what `parseInt` reads from it, the only thing the
      layout uses it for (see `PercentOf`). */
  datatype SizeHint = Pixels(size: real) | Percent(reading: Option<int>) | NotANumber

  /** The value for a string in `initialSizes`. */
  function PercentOf(text: string): SizeHint {
    Percent(Decimal.ParseInt(text))
  }

  /** One key of `initialSizes` (a pane index) with its value, in the order
      `Object.keys` lists them. */
  datatype Entry = Entry(key: int, hint: SizeHint)

  /** `InvalidInitialSize` is the error the source throws for a NaN entry
      (its message shows the offending value, which is always NaN).
      `DivisionByZero` marks a computation where the source divides by zero
      and goes on with an infinite or NaN pane size, which these real-valued
      sizes cannot hold. */
  datatype LayoutError = InvalidInitialSize | DivisionByZero

  /** A string value becomes `parseInt(text) / 100 * container`; numbers stay. */
  function ConvertHint(h: SizeHint, container: real): (r: SizeHint)
    ensures !r.Percent?
    ensures h.Pixels? ==> r == h
    ensures h.NotANumber? ==> r == NotANumber
    ensures h.Percent? && h.reading.Some? ==> r == Pixels(h.reading.value as real / 100.0 * container)
    ensures h.Percent? && h.reading.None? ==> r == NotANumber
  {
    match h
    case Pixels(_) => h
    case NotANumber => h
    case Percent(reading) =>
      match reading
      case Some(p) => Pixels(p as real / 100.0 * container)
      case None => NotANumber
  }

  function Convert(e: Entry, container: real): Entry {
    e.(hint := ConvertHint(e.hint, container))
  }

  /** `es` after the first `k` entries have been converted in place. */
  function ConvertPrefix(es: seq<Entry>, k: nat, container: real): (r: seq<Entry>)
    requires k <= |es|
    ensures |r| == |es|
    ensures forall j :: 0 <= j < |es| ==> r[j].key == es[j].key
  {
    seq(|es|, j requires 0 <= j < |es| => if j < k then Convert(es[j], container) else es[j])
  }

  /** A converted entry whose value is NaN. */
  predicate IsNaN(e: Entry) {
    e.hint.NotANumber?
  }

  /** Position of the first entry that is NaN once converted. */
  function FirstNaN(conv: seq<Entry>): (r: Option<nat>)
    ensures r.Some? ==> r.value < |conv| && IsNaN(conv[r.value])
    ensures r.Some? ==> forall j :: 0 <= j < r.value ==> !IsNaN(conv[j])
    ensures r.None? <==> forall j :: 0 <= j < |conv| ==> !IsNaN(conv[j])
  {
    if conv == [] then None
    else if IsNaN(conv[0]) then Some(0)
    else
      match FirstNaN(conv[1..])
      case None => None
      case Some(j) => Some(j + 1)
  }

  /** The pixel value of a converted entry (0 for NaN, which never gets that far). */
  function PixelsOf(h: SizeHint): real {
    if h.Pixels? then h.size else 0.0
  }

  /** Total that the entries subtract from the container extent. */
  function SumPixels(es: seq<Entry>): real {
    if es == [] then 0.0 else SumPixels(es[..|es| - 1]) + PixelsOf(es[|es| - 1].hint)
  }

  /** `initialSizes[i]`: the value stored under key `i`, if any. */
  function Lookup(es: seq<Entry>, i: int): (r: Option<SizeHint>)
    ensures r.None? <==> forall j :: 0 <= j < |es| ==> es[j].key != i
    ensures forall j :: 0 <= j < |es| && es[j].key == i && (forall m :: j < m < |es| ==> es[m].key != i) ==>
      r == Some(es[j].hint)
  {
    if es == [] then None
    else if es[|es| - 1].key == i then Some(es[|es| - 1].hint)
    else Lookup(es[..|es| - 1], i)
  }

  /** A JavaScript object has each key once. */
  predicate DistinctKeys(es: seq<Entry>) {
    forall a, b :: 0 <= a < b < |es| ==> es[a].key != es[b].key
  }

  /** The explicit size of pane `i`: the value under key `i` when it is a
      truthy number. A zero is falsy and gives no explicit size. */
  function ExplicitSize(es: seq<Entry>, i: int): Option<real> {
    match Lookup(es, i)
    case Some(Pixels(v)) => if v != 0.0 then Some(v) else None
    case _ => None
  }

  /** The even share of what is left for the panes without an explicit size;
      `None` where the source divides by zero. */
  function DefaultShare(remaining: real, n: nat, defaultPanes: int): (r: Option<real>)
    ensures r.None? <==> defaultPanes == 0
  {
    if defaultPanes == 0 then None
    else Some((remaining - (n as real - 1.0) * SPLITTER_SIZE) / defaultPanes as real)
  }

  /** Whether some pane below `n` falls back to the default share. */
  predicate NeedsDefault(es: seq<Entry>, n: nat) {
    exists i :: 0 <= i < n && ExplicitSize(es, i).None?
  }

  /** Each pane's explicit size when it has one, else `share`. */
  function Fill(n: nat, es: seq<Entry>, share: real): (r: seq<real>)
    ensures |r| == n
    ensures forall i :: 0 <= i < n ==> r[i] == ExplicitSize(es, i).GetOr(share)
  {
    seq(n, i requires 0 <= i < n => ExplicitSize(es, i).GetOr(share))
  }

  /** The configuration's entries, an absent configuration having none. */
  function EntriesOf(hints: Option<seq<Entry>>): seq<Entry> {
    if hints.Some? then hints.value else []
  }

  /** The sizes of `n` panes laid out in a container of extent `container`.
      With no `initialSizes` the panes share the extent evenly; otherwise
      every entry is converted and checked, its value is taken off the
      extent, and the panes without a truthy value share what is left. */
  function InitialLayout(n: nat, hints: Option<seq<Entry>>, container: real): (r: Result<seq<real>, LayoutError>)
    ensures r.Success? ==> |r.value| == n
    ensures hints.None? ==> r.Success?
    ensures r == Failure(InvalidInitialSize) <==>
      exists k :: 0 <= k < |EntriesOf(hints)| && ConvertHint(EntriesOf(hints)[k].hint, container).NotANumber?
    ensures r == Failure(DivisionByZero) ==> |EntriesOf(hints)| == n
  {
    var es := EntriesOf(hints);
    var conv := ConvertPrefix(es, |es|, container);
    match FirstNaN(conv)
    case Some(_) => Failure(InvalidInitialSize)
    case None =>
      var share := DefaultShare(container - SumPixels(conv), n, n - |es|);
      if share.None? && NeedsDefault(conv, n) then Failure(DivisionByZero)
      else Success(Fill(n, conv, share.GetOr(0.0)))
  }

  /** Replacing one element of a list changes its sum by the difference. */
  lemma {:induction false} SumUpdate(s: seq<real>, k: nat, x: real)
    requires k < |s|
    ensures Sum(s[k := x]) == Sum(s) - s[k] + x
  {
    var t := s[k := x];
    if k < |s| - 1 {
      assert t[..|t| - 1] == s[..|s| - 1][k := x];
      SumUpdate(s[..|s| - 1], k, x);
    } else {
      assert t[..|t| - 1] == s[..|s| - 1];
    }
  }

  /** `x + x + ... + x` with `k` terms. */
  function Copies(k: nat, x: real): real {
    if k == 0 then 0.0 else Copies(k - 1, x) + x
  }

  /** Repeated addition is multiplication. */
  lemma {:induction false} CopiesIsProduct(k: nat, x: real)
    ensures Copies(k, x) == k as real * x
  {
    if k > 0 {
      CopiesIsProduct(k - 1, x);
    }
  }

  /** `k` shares of `total / k` make up `total`. */
  lemma CopiesOfShare(k: nat, total: real)
    requires k > 0
    ensures Copies(k, total / k as real) == total
  {
    CopiesIsProduct(k, total / k as real);
  }

  /** A list of `n` copies of `x` sums to `n` copies of `x`. */
  lemma {:induction false} SumConstant(n: nat, x: real)
    ensures Sum(seq(n, _ => x)) == Copies(n, x)
  {
    if n > 0 {
      assert seq(n, _ => x)[..n - 1] == seq(n - 1, _ => x);
      SumConstant(n - 1, x);
    }
  }

  /** Adding the last entry fills its pane with its value instead of the share. */
  lemma FillSnoc(n: nat, es: seq<Entry>, e: Entry, share: real)
    requires 0 <= e.key < n
    requires e.hint.Pixels? && e.hint.size != 0.0
    requires forall j :: 0 <= j < |es| ==> es[j].key != e.key
    ensures Fill(n, es + [e], share) == Fill(n, es, share)[e.key := e.hint.size]
    ensures Fill(n, es, share)[e.key] == share
  {
    var all := es + [e];
    assert all[..|all| - 1] == es;
    assert Lookup(es, e.key).None?;
  }

  /** The explicit sizes plus one share per remaining pane. */
  lemma {:induction false} FillSum(n: nat, es: seq<Entry>, share: real)
    requires |es| <= n
    requires DistinctKeys(es)
    requires forall j :: 0 <= j < |es| ==> 0 <= es[j].key < n
    requires forall j :: 0 <= j < |es| ==> es[j].hint.Pixels? && es[j].hint.size != 0.0
    ensures Sum(Fill(n, es, share)) == SumPixels(es) + Copies(n - |es|, share)
  {
    if es == [] {
      assert Fill(n, es, share) == seq(n, _ => share);
      SumConstant(n, share);
    } else {
      var init, e := es[..|es| - 1], es[|es| - 1];
      var before := Sum(Fill(n, init, share));
      assert before == SumPixels(init) + Copies(n - |init|, share) by {
        DistinctPrefix(es);
        FillSum(n, init, share);
      }
      assert Sum(Fill(n, es, share)) == before - share + e.hint.size by {
        assert es == init + [e];
        FillSumStep(n, init, e, share);
      }
      assert SumPixels(es) == SumPixels(init) + e.hint.size;
      assert Copies(n - |init|, share) == Copies(n - |es|, share) + share;
    }
  }

  /** Dropping the last entry keeps the keys distinct. */
  lemma DistinctPrefix(es: seq<Entry>)
    requires |es| > 0 && DistinctKeys(es)
    ensures DistinctKeys(es[..|es| - 1])
  {
    var init := es[..|es| - 1];
    forall a, b | 0 <= a < b < |init| ensures init[a].key != init[b].key {
      assert init[a] == es[a] && init[b] == es[b];
    }
  }

  /** The inductive step of FillSum: one more entry at the end trades a
      share for its value. */
  lemma FillSumStep(n: nat, init: seq<Entry>, e: Entry, share: real)
    requires DistinctKeys(init + [e])
    requires 0 <= e.key < n
    requires e.hint.Pixels? && e.hint.size != 0.0
    ensures Sum(Fill(n, init + [e], share)) == Sum(Fill(n, init, share)) - share + e.hint.size
  {
    var es := init + [e];
    assert es[..|es| - 1] == init;
    assert forall j :: 0 <= j < |init| ==> init[j].key != e.key by {
      forall j | 0 <= j < |init| ensures init[j].key != e.key {
        assert init[j] == es[j] && e == es[|init|];
      }
    }
    FillSnoc(n, init, e, share);
    SumUpdate(Fill(n, init, share), e.key, e.hint.size);
  }

  /** Converting a valid configuration whose values are not 0 gives nonzero
      numbers under the same distinct keys. */
  lemma ConvertedFacts(es: seq<Entry>, container: real)
    requires DistinctKeys(es)
    requires FirstNaN(ConvertPrefix(es, |es|, container)).None?
    requires forall j :: 0 <= j < |es| ==> ConvertPrefix(es, |es|, container)[j].hint != Pixels(0.0)
    ensures DistinctKeys(ConvertPrefix(es, |es|, container))
    ensures forall j :: 0 <= j < |es| ==>
      ConvertPrefix(es, |es|, container)[j].hint.Pixels? && ConvertPrefix(es, |es|, container)[j].hint.size != 0.0
  {
    var conv := ConvertPrefix(es, |es|, container);
    forall a, b | 0 <= a < b < |conv| ensures conv[a].key != conv[b].key {
      assert conv[a].key == es[a].key && conv[b].key == es[b].key;
    }
    forall j | 0 <= j < |conv| ensures conv[j].hint.Pixels? && conv[j].hint.size != 0.0 {
      assert !IsNaN(conv[j]);
    }
  }

  /** With valid entries whose keys are distinct pane indices, fewer entries
      than panes and no converted value equal to 0, the layout succeeds and
      the sizes plus the splitter footprint add up to the container extent. */
  lemma InitialLayoutConserves(n: nat, hints: Option<seq<Entry>>, container: real)
    requires DistinctKeys(EntriesOf(hints))
    requires forall j :: 0 <= j < |EntriesOf(hints)| ==> 0 <= EntriesOf(hints)[j].key < n
    requires |EntriesOf(hints)| < n
    requires FirstNaN(ConvertPrefix(EntriesOf(hints), |EntriesOf(hints)|, container)).None?
    requires forall j :: 0 <= j < |EntriesOf(hints)| ==>
      ConvertPrefix(EntriesOf(hints), |EntriesOf(hints)|, container)[j].hint != Pixels(0.0)
    ensures InitialLayout(n, hints, container).Success?
    ensures Sum(InitialLayout(n, hints, container).value) + (n as real - 1.0) * SPLITTER_SIZE == container
  {
    var es := EntriesOf(hints);
    var conv := ConvertPrefix(es, |es|, container);
    ConvertedFacts(es, container);
    var remaining := container - SumPixels(conv);
    var d := n - |es|;
    var share := (remaining - (n as real - 1.0) * SPLITTER_SIZE) / d as real;
    assert DefaultShare(remaining, n, d) == Some(share);
    assert InitialLayout(n, hints, container) == Success(Fill(n, conv, share));
    assert Sum(Fill(n, conv, share)) == SumPixels(conv) + Copies(d, share) by {
      FillSum(n, conv, share);
    }
    assert Copies(d, share) == remaining - (n as real - 1.0) * SPLITTER_SIZE by {
      CopiesOfShare(d, remaining - (n as real - 1.0) * SPLITTER_SIZE);
    }
  }

  /** Without `initialSizes` every pane gets `(container - (n-1) * SPLITTER_SIZE) / n`. */
  lemma EvenSplit(n: nat, container: real)
    requires n >= 1
    ensures InitialLayout(n, None, container).Success?
    ensures forall i :: 0 <= i < n ==>
      InitialLayout(n, None, container).value[i] == (container - (n as real - 1.0) * SPLITTER_SIZE) / n as real
    ensures Sum(InitialLayout(n, None, container).value) + (n as real - 1.0) * SPLITTER_SIZE == container
  {
    InitialLayoutConserves(n, None, container);
  }

  /** Each converted entry is taken off the extent and counted as explicit,
      but a pane whose value is 0 still takes the default share. */
  lemma ZeroSizeTakesShare(n: nat, es: seq<Entry>, container: real, i: nat)
    requires i < n
    requires FirstNaN(ConvertPrefix(es, |es|, container)).None?
    requires Lookup(ConvertPrefix(es, |es|, container), i) == Some(Pixels(0.0))
    requires n - |es| != 0
    ensures InitialLayout(n, Some(es), container).Success?
    ensures InitialLayout(n, Some(es), container).value[i] ==
      (container - SumPixels(ConvertPrefix(es, |es|, container)) - (n as real - 1.0) * SPLITTER_SIZE) / (n - |es|) as real
  {
    var conv := ConvertPrefix(es, |es|, container);
    var share := (container - SumPixels(conv) - (n as real - 1.0) * SPLITTER_SIZE) / (n - |es|) as real;
    assert InitialLayout(n, Some(es), container) == Success(Fill(n, conv, share)) by {
      assert DefaultShare(container - SumPixels(conv), n, n - |es|) == Some(share);
    }
    assert Fill(n, conv, share)[i] == share by {
      assert ExplicitSize(conv, i) == None;
    }
  }

  /** So an explicit 0 breaks conservation: two panes in 400 with
      `initialSizes = {0: 0}` are both 400 wide. */
  lemma ZeroSizeOvershoots()
    ensures InitialLayout(2, Some([Entry(0, Pixels(0.0))]), 400.0) == Success([400.0, 400.0])
  {
    var es := [Entry(0, Pixels(0.0))];
    var r := InitialLayout(2, Some(es), 400.0);
    assert ConvertPrefix(es, 1, 400.0) == es;
    assert Lookup(es, 0) == Some(Pixels(0.0));
    assert Lookup(es, 1) == None;
    assert r.value == [400.0, 400.0];
  }

  /** One entry that is NaN after conversion fails the whole layout. */
  lemma InvalidEntryFails(n: nat, es: seq<Entry>, container: real, k: nat)
    requires k < |es| && ConvertHint(es[k].hint, container).NotANumber?
    ensures InitialLayout(n, Some(es), container) == Failure(InvalidInitialSize)
  {
    var conv := ConvertPrefix(es, |es|, container);
    assert IsNaN(conv[k]);
  }

  /** Two panes in a container 400 wide are 200 each. */
  lemma TwoEvenPanes()
    ensures InitialLayout(2, None, 400.0) == Success([200.0, 200.0])
  {
    assert ConvertPrefix([], 0, 400.0) == [];
    assert Fill(2, [], 200.0) == [200.0, 200.0];
  }

  /** Three panes in 500 with `initialSizes = {0: 100}` are 100, 200, 200. */
  lemma OneFixedPane()
    ensures InitialLayout(3, Some([Entry(0, Pixels(100.0))]), 500.0) == Success([100.0, 200.0, 200.0])
  {
    var es := [Entry(0, Pixels(100.0))];
    assert ConvertPrefix(es, 1, 500.0) == es;
    assert Lookup(es, 0) == Some(Pixels(100.0));
    assert Lookup(es, 1) == None && Lookup(es, 2) == None;
    assert Fill(3, es, 200.0) == [100.0, 200.0, 200.0];
  }

  /** `initialSizes = {0: "25%"}` in 400 gives pane 0 a size of 100 (and the
      other of two panes the remaining 300). */
  lemma QuarterPane()
    ensures InitialLayout(2, Some([Entry(0, PercentOf("25%"))]), 400.0) == Success([100.0, 300.0])
  {
    ParseQuarter();
    QuarterOf400(PercentOf("25%"));
  }

  /** Any percentage that reads as 25 sizes pane 0 at a quarter of 400. */
  lemma QuarterOf400(h: SizeHint)
    requires h == Percent(Some(25))
    ensures InitialLayout(2, Some([Entry(0, h)]), 400.0) == Success([100.0, 300.0])
  {
    var es := [Entry(0, h)];
    var conv := [Entry(0, Pixels(100.0))];
    assert ConvertPrefix(es, 1, 400.0) == conv;
    assert SumPixels(conv) == 100.0;
    assert DefaultShare(300.0, 2, 1) == Some(300.0);
    assert Lookup(conv, 0) == Some(Pixels(100.0));
    assert Lookup(conv, 1) == None;
    assert Fill(2, conv, 300.0) == [100.0, 300.0];
  }

  lemma ParseQuarter()
    ensures Decimal.ParseInt("25%") == Some(25)
  {
    Decimal.ParseIntOfDecimal(25, "%");
    assert Decimal.NatToDecimal(2) == "2";
    assert Decimal.NatToDecimal(25) == "25";
    assert "25" + "%" == "25%";
  }

  /** A string holding a whole number followed by `%` (or by anything else
      that does not continue the number) becomes that percentage of the
      container. */
  lemma PercentOfDecimal(k: nat, rest: string, container: real)
    requires rest == [] || (!Decimal.IsDigitIn(rest[0], 10) && rest[0] != 'x' && rest[0] != 'X')
    ensures ConvertHint(PercentOf(Decimal.NatToDecimal(k) + rest), container) == Pixels(k as real / 100.0 * container)
  {
    Decimal.ParseIntOfDecimal(k, rest);
    PercentOfReading(PercentOf(Decimal.NatToDecimal(k) + rest), k, container);
  }

  /** A string that `parseInt` reads as `p` becomes `p` percent of the
      container. */
  lemma PercentOfReading(h: SizeHint, p: int, container: real)
    requires h == Percent(Some(p))
    ensures ConvertHint(h, container) == Pixels(p as real / 100.0 * container)
  {
  }

  /** An unparsable percentage is a configuration error. */
  lemma UnparsablePercentFails()
    ensures InitialLayout(2, Some([Entry(1, PercentOf("wide"))]), 400.0) == Failure(InvalidInitialSize)
  {
    Decimal.ParseIntNoDigits("wide");
    InvalidEntryFails(2, [Entry(1, PercentOf("wide"))], 400.0, 0);
  }

  // ---------------------------------------------------------------------
  // Container resize (calculateSecondaryPaneSizes)
  // ---------------------------------------------------------------------

  /** `delta / (panes.length - 1)`, or `None` where that divides by zero. */
  function Adjustment(delta: real, panesLength: nat): (r: Option<real>)
    ensures r.None? <==> panesLength == 1
  {
    if panesLength == 1 then None else Some(delta / (panesLength - 1) as real)
  }

  /** Every size except the one at `primary` grows by `a`. */
  function AddExcept(s: seq<real>, primary: int, a: real): (r: seq<real>)
    ensures |r| == |s|
    ensures forall i :: 0 <= i < |s| ==> r[i] == if i == primary then s[i] else s[i] + a
  {
    seq(|s|, i requires 0 <= i < |s| => if i == primary then s[i] else s[i] + a)
  }

  /** Whether a list of `n` sizes has an entry other than the primary one. */
  predicate HasSecondary(n: nat, primary: int) {
    n >= 2 || (n == 1 && primary != 0)
  }

  /** The sizes after the container grew by `delta`: the change is spread
      evenly over all panes but the primary one. `None` where the source
      would divide by zero and store an infinite size. */
  function Redistribute(sizes: seq<real>, primary: int, panesLength: nat, delta: real): (r: Option<seq<real>>)
    ensures r.None? <==> panesLength == 1 && HasSecondary(|sizes|, primary)
    ensures r.Some? ==> |r.value| == |sizes|
    ensures r.Some? && 0 <= primary < |sizes| ==> r.value[primary] == sizes[primary]
  {
    match Adjustment(delta, panesLength)
    case Some(a) => Some(AddExcept(sizes, primary, a))
    case None => if HasSecondary(|sizes|, primary) then None else Some(sizes)
  }

  /** Growing all entries but one by `a` adds one `a` per entry grown. */
  lemma {:induction false} SumAddExcept(s: seq<real>, primary: int, a: real)
    ensures Sum(AddExcept(s, primary, a)) ==
      Sum(s) + Copies(|s| - (if 0 <= primary < |s| then 1 else 0), a)
  {
    if s != [] {
      var init := s[..|s| - 1];
      assert AddExcept(s, primary, a)[..|s| - 1] == AddExcept(init, primary, a);
      SumAddExcept(init, primary, a);
    }
  }

  /** The primary pane keeps its size and every other pane moves by the same
      amount; with one size per rendered pane, at least two panes and the
      primary index among them, the total moves by exactly `delta`. */
  lemma RedistributeConserves(sizes: seq<real>, primary: int, delta: real)
    requires |sizes| >= 2 && 0 <= primary < |sizes|
    ensures Redistribute(sizes, primary, |sizes|, delta).Some?
    ensures Redistribute(sizes, primary, |sizes|, delta).value[primary] == sizes[primary]
    ensures Sum(Redistribute(sizes, primary, |sizes|, delta).value) == Sum(sizes) + delta
  {
    RedistributeSpreads(sizes, primary, delta);
    var a := Adjustment(delta, |sizes|).value;
    AdjustmentAddsUp(delta, |sizes|);
    assert 0 <= primary < |sizes|;
    assert Copies(|sizes| - 1, a) == delta;
    SumSpread(sizes, primary, a, delta);
  }

  /** Spreading `delta` as `|sizes| - 1` equal parts over all sizes but the
      primary one adds `delta` to the total. */
  lemma SumSpread(sizes: seq<real>, primary: int, a: real, delta: real)
    requires 0 <= primary < |sizes|
    requires Copies(|sizes| - 1, a) == delta
    ensures Sum(AddExcept(sizes, primary, a)) == Sum(sizes) + delta
  {
    SumAddExcept(sizes, primary, a);
  }

  /** With more than one pane the adjustment is defined and spread over all
      sizes but the primary one. */
  lemma RedistributeSpreads(sizes: seq<real>, primary: int, delta: real)
    requires |sizes| >= 2
    ensures Adjustment(delta, |sizes|).Some?
    ensures Redistribute(sizes, primary, |sizes|, delta) ==
      Some(AddExcept(sizes, primary, Adjustment(delta, |sizes|).value))
  {
  }

  /** The adjustments given to the `panesLength - 1` secondary panes add up
      to `delta`. */
  lemma AdjustmentAddsUp(delta: real, panesLength: nat)
    requires panesLength >= 2
    ensures Copies(panesLength - 1, Adjustment(delta, panesLength).value) == delta
  {
    CopiesOfShare(panesLength - 1, delta);
  }

  /** A layout that fills its old container fills the new one after a resize. */
  lemma ResizeKeepsConservation(sizes: seq<real>, primary: int, oldContainer: real, newContainer: real)
    requires |sizes| >= 2 && 0 <= primary < |sizes|
    requires Sum(sizes) + (|sizes| as real - 1.0) * SPLITTER_SIZE == oldContainer
    ensures Redistribute(sizes, primary, |sizes|, newContainer - oldContainer).Some?
    ensures Sum(Redistribute(sizes, primary, |sizes|, newContainer - oldContainer).value)
      + (|sizes| as real - 1.0) * SPLITTER_SIZE == newContainer
  {
    RedistributeConserves(sizes, primary, newContainer - oldContainer);
  }

  // ---------------------------------------------------------------------
  // Drag step (calculatePaneSizes)
  // ---------------------------------------------------------------------

  /** `minSizes[i] || MIN_PANE_SIZE`. */
  function MinSizeOf(minSizes: map<int, real>, i: int): (r: real)
    ensures i in minSizes && minSizes[i] != 0.0 ==> r == minSizes[i]
    ensures i !in minSizes || minSizes[i] == 0.0 ==> r == MIN_PANE_SIZE
  {
    if i in minSizes && minSizes[i] != 0.0 then minSizes[i] else MIN_PANE_SIZE
  }

  /** What one drag step computes: the primary size before the upper bound
      (which the pane record caches), the committed primary size and the
      secondary size. */
  datatype DragSizes = DragSizes(raised: real, primary: real, secondary: real)

  /** One drag step for a splitter whose panes (and the splitter itself)
      span `local`: the primary pane follows the pointer offset, raised to
      its minimum, then lowered so that it and the splitter fit in `local`;
      the secondary pane takes the rest, raised to its own minimum. */
  function DragStep(offset: real, local: real, splitter: real, minPrimary: real, minSecondary: real): (r: DragSizes)
    ensures r.raised >= minPrimary && r.raised >= offset
    ensures r.primary + splitter <= local
    ensures r.secondary >= minSecondary
    ensures r.primary >= minPrimary <==> local - splitter >= minPrimary
    ensures r.primary + r.secondary + splitter == local <==> local - r.primary - splitter >= minSecondary
    ensures minPrimary <= offset && offset + splitter <= local && local - offset - splitter >= minSecondary ==>
      r.primary == offset && r.secondary == local - offset - splitter
  {
    var raised := Max(offset, minPrimary);
    var primary := if raised + splitter > local then local - splitter else raised;
    DragSizes(raised, primary, Max(local - primary - splitter, minSecondary))
  }

  /** The drag step for pointer `pointer`, the measured boxes of the two panes
      and the splitter box captured when the drag began. */
  function DragFromBoxes(o: Orientation, pointer: Point, pane1: Rect, pane2: Rect, splitter: Rect,
                         minPrimary: real, minSecondary: real): (r: DragSizes)
    ensures r.raised >= minPrimary && r.raised >= Coordinate(o, pointer) - LeadingEdge(o, pane1)
    ensures r.primary <= Extent(o, pane1) + Extent(o, pane2)
    ensures r.secondary >= minSecondary
    ensures r.primary + r.secondary == Extent(o, pane1) + Extent(o, pane2)
      <==> Extent(o, pane1) + Extent(o, pane2) - r.primary >= minSecondary
  {
    DragStep(Coordinate(o, pointer) - LeadingEdge(o, pane1),
             Extent(o, pane1) + Extent(o, pane2) + Extent(o, splitter),
             Extent(o, splitter), minPrimary, minSecondary)
  }

  /** One entry handed to the size-change observer. `percentage` is `None`
      where the source divides by a zero container extent. */
  datatype SizeReport = SizeReport(absolute: real, percentage: Option<real>)

  function Percentage(size: real, container: real): Option<real> {
    if container == 0.0 then None else Some(size / container * 100.0)
  }

  /** `paneSizes.map(size => ({absolute: size, percentage: size / container * 100}))`. */
  function SizeReports(sizes: seq<real>, container: real): (r: seq<SizeReport>)
    ensures |r| == |sizes|
    ensures forall i :: 0 <= i < |sizes| ==> r[i].absolute == sizes[i]
    ensures container != 0.0 ==>
      forall i :: 0 <= i < |sizes| ==> r[i].percentage == Some(sizes[i] / container * 100.0)
  {
    seq(|sizes|, i requires 0 <= i < |sizes| => SizeReport(sizes[i], Percentage(sizes[i], container)))
  }

  /** Sum of the reported percentages. */
  function PercentTotal(r: seq<SizeReport>): real {
    if r == [] then 0.0 else PercentTotal(r[..|r| - 1]) + r[|r| - 1].percentage.GetOr(0.0)
  }

  /** The percentages are the sizes' shares of the container: when the sizes
      add up to the container extent, the percentages add up to 100. */
  lemma {:induction false} PercentagesAreShares(sizes: seq<real>, container: real)
    requires container != 0.0
    ensures PercentTotal(SizeReports(sizes, container)) == Sum(sizes) / container * 100.0
  {
    if sizes != [] {
      var init := sizes[..|sizes| - 1];
      assert SizeReports(sizes, container)[..|sizes| - 1] == SizeReports(init, container);
      PercentagesAreShares(init, container);
      ShareOfSum(Sum(init), sizes[|sizes| - 1], container);
    }
  }

  lemma ShareOfSum(a: real, b: real, container: real)
    requires container != 0.0
    ensures a / container * 100.0 + b / container * 100.0 == (a + b) / container * 100.0
  {
  }

  lemma PercentagesAddUpTo100(sizes: seq<real>, container: real)
    requires container != 0.0 && Sum(sizes) == container
    ensures PercentTotal(SizeReports(sizes, container)) == 100.0
  {
    PercentagesAreShares(sizes, container);
    assert Sum(sizes) / container == 1.0;
  }

  /** Dragging splitter 0 between two 200-wide panes (left edge 0) to x = 350
      gives 350 and 50, reported as 87.5 % and 12.5 % of 400. */
  lemma DragScenario()
    ensures DragFromBoxes(Vertical, Point(350.0, 0.0), Rect(0.0, 0.0, 200.0, 10.0),
                          Rect(200.0, 0.0, 200.0, 10.0), Rect(200.0, 0.0, 0.0, 10.0), 0.0, 0.0)
            == DragSizes(350.0, 350.0, 50.0)
    ensures SizeReports([350.0, 50.0], 400.0) ==
            [SizeReport(350.0, Some(87.5)), SizeReport(50.0, Some(12.5))]
  {
  }

  /** With `minSizes[1] = 100` the same drag leaves the primary pane at 350
      and raises the secondary to 100: the pair then spans 450 of its 400,
      because the secondary clamp runs last and nothing rebalances. */
  lemma DragScenarioWithSecondaryMinimum()
    ensures DragFromBoxes(Vertical, Point(350.0, 0.0), Rect(0.0, 0.0, 200.0, 10.0),
                          Rect(200.0, 0.0, 200.0, 10.0), Rect(200.0, 0.0, 0.0, 10.0), 0.0, 100.0)
            == DragSizes(350.0, 350.0, 100.0)
  {
  }

  // ---------------------------------------------------------------------
  // Rendering (render)
  // ---------------------------------------------------------------------

  /** What `render` emits, in order: panes (with the size from state, absent
      when state has no entry) and splitter handles. */
  datatype RenderItem = PaneItem(index: nat, size: Option<real>) | SplitterItem(index: nat)

  /** `this.state.paneSizes[i]`, absent beyond the end. */
  function SizeAt(sizes: seq<real>, i: nat): Option<real> {
    if i < |sizes| then Some(sizes[i]) else None
  }

  /** `this.state.paneSizes[i] || DEFAULT_PANE_SIZE`. */
  function CachedSize(sizes: seq<real>, i: nat): (r: real)
    ensures i < |sizes| && sizes[i] != 0.0 ==> r == sizes[i]
    ensures !(i < |sizes| && sizes[i] != 0.0) ==> r == DEFAULT_PANE_SIZE
    ensures r != 0.0
  {
    if i < |sizes| && sizes[i] != 0.0 then sizes[i] else DEFAULT_PANE_SIZE
  }

  /** A splitter follows child `j` when child `j + 1` exists and is truthy. */
  predicate SplitterAfter(children: seq<bool>, j: nat) {
    j + 1 < |children| && children[j + 1]
  }

  /** Number of splitters emitted while rendering the first `k` children. */
  function SplittersBefore(children: seq<bool>, k: nat): nat
    requires k <= |children|
  {
    if k == 0 then 0
    else SplittersBefore(children, k - 1) + (if SplitterAfter(children, k - 1) then 1 else 0)
  }

  /** The items child `j` contributes: its pane, then maybe a splitter. */
  function ItemsFor(children: seq<bool>, sizes: seq<real>, j: nat): seq<RenderItem>
    requires j < |children|
  {
    [PaneItem(j, SizeAt(sizes, j))]
    + (if SplitterAfter(children, j) then [SplitterItem(SplittersBefore(children, j))] else [])
  }

  /** The items rendered for the first `k` children. */
  function RenderItems(children: seq<bool>, sizes: seq<real>, k: nat): (r: seq<RenderItem>)
    requires k <= |children|
    ensures |r| == k + SplittersBefore(children, k)
  {
    if k == 0 then [] else RenderItems(children, sizes, k - 1) + ItemsFor(children, sizes, k - 1)
  }

  /** When every child after the first is truthy, `n` children render as
      pane 0, splitter 0, pane 1, ..., splitter n-2, pane n-1: splitter `k`
      sits between panes `k` and `k + 1`. */
  lemma {:induction false} RenderPrefix(children: seq<bool>, sizes: seq<real>, k: nat)
    requires k < |children|
    requires forall j :: 1 <= j < |children| ==> children[j]
    ensures SplittersBefore(children, k) == k
    ensures |RenderItems(children, sizes, k)| == 2 * k
    ensures forall j :: 0 <= j < k ==> RenderItems(children, sizes, k)[2 * j] == PaneItem(j, SizeAt(sizes, j))
    ensures forall j :: 0 <= j < k ==> RenderItems(children, sizes, k)[2 * j + 1] == SplitterItem(j)
  {
    if k > 0 {
      RenderPrefix(children, sizes, k - 1);
    }
  }

  lemma RenderAlternates(children: seq<bool>, sizes: seq<real>)
    requires |children| >= 1
    requires forall j :: 1 <= j < |children| ==> children[j]
    ensures SplittersBefore(children, |children|) == |children| - 1
    ensures |RenderItems(children, sizes, |children|)| == 2 * |children| - 1
    ensures forall j :: 0 <= j < |children| ==>
      RenderItems(children, sizes, |children|)[2 * j] == PaneItem(j, SizeAt(sizes, j))
    ensures forall j :: 0 <= j < |children| - 1 ==>
      RenderItems(children, sizes, |children|)[2 * j + 1] == SplitterItem(j)
  {
    RenderPrefix(children, sizes, |children| - 1);
  }
}
