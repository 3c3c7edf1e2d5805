/** The `Splitter` component: a row or column of panes separated by
    draggable handles. Its instance fields and its React state become the
    fields of a class; the DOM measurements it takes
    (`getBoundingClientRect`) and the mouse positions it reads are passed in
    as parameters. */
module SplitterComponent {
  import opened Wrappers
  import opened SplitterGeometry

  /** The `initialSizes` prop. An object is one value the layout rewrites in
      place on every calculation; a function is called on every calculation
      and returns a fresh object (or nothing). */
  datatype InitialSizes = NoInitialSizes | Fixed(entries: seq<Entry>) | Factory(made: Option<seq<Entry>>)

  /** The entries a calculation reads: what the object holds now, or what
      the function returns. */
  function HintsOf(s: InitialSizes): Option<seq<Entry>> {
    match s
    case NoInitialSizes => None
    case Fixed(es) => Some(es)
    case Factory(made) => made
  }

  /** How many entries a calculation converts before it stops: all of them,
      or up to and including the first one that comes out NaN. */
  function ConvertedCount(es: seq<Entry>, container: real): (k: nat)
    ensures k <= |es|
  {
    match FirstNaN(ConvertPrefix(es, |es|, container))
    case Some(j) => j + 1
    case None => |es|
  }

  /** The `initialSizes` prop after a calculation against `container`: an
      object keeps the converted values written into it. */
  function AfterConversion(s: InitialSizes, container: real): InitialSizes {
    match s
    case Fixed(es) => Fixed(ConvertPrefix(es, ConvertedCount(es, container), container))
    case _ => s
  }

  /** `top` written over the front of `base`; `base` keeps its longer tail. */
  function Overlay(base: seq<real>, top: seq<real>): (r: seq<real>)
    ensures |r| == if |base| > |top| then |base| else |top|
  {
    if |base| > |top| then top + base[|top|..] else top
  }

  /** Each position of the overlay comes from `top` where `top` reaches and
      from `base` beyond it. */
  lemma OverlayElements(base: seq<real>, top: seq<real>)
    ensures forall i :: 0 <= i < |top| ==> Overlay(base, top)[i] == top[i]
    ensures forall i :: |top| <= i < |base| ==> Overlay(base, top)[i] == base[i]
  {
  }

  /** A JavaScript array assignment `s[i] = x` at an index no further than
      one past the end. */
  function Put(s: seq<real>, i: nat, x: real): (r: seq<real>)
    requires i <= |s|
    ensures |r| == if i < |s| then |s| else |s| + 1
  {
    if i < |s| then s[i := x] else s + [x]
  }

  /** Writing the next value after the overlaid front extends the front. */
  lemma OverlayPut(base: seq<real>, top: seq<real>, x: real)
    ensures Put(Overlay(base, top), |top|, x) == Overlay(base, top + [x])
  {
  }

  /** The layout of one more pane adds that pane's size at the end; with no
      pane below `i` needing the share, pane `i` decides whether one below
      `i + 1` does. */
  lemma FillGrows(i: nat, es: seq<Entry>, share: real)
    ensures Fill(i + 1, es, share) == Fill(i, es, share) + [ExplicitSize(es, i).GetOr(share)]
    ensures !NeedsDefault(es, i) && ExplicitSize(es, i).Some? ==> !NeedsDefault(es, i + 1)
  {
    assert Fill(i + 1, es, share)[..i] == Fill(i, es, share);
  }

  /** `this.panes[i].size` as render leaves it: the state's size, or the
      default where the state has none (or 0). */
  function CacheFor(sizes: seq<real>, n: nat): (r: seq<real>)
    ensures |r| == n
  {
    if n == 0 then [] else CacheFor(sizes, n - 1) + [CachedSize(sizes, n - 1)]
  }

  /** The index `calculateSecondaryPaneSizes` leaves alone; no index when
      there is no primary pane. */
  function PrimaryPosition(p: Option<int>): int {
    if p.Some? then p.value else -1
  }

  class Splitter {
    /** Truthiness of each child, in order. */
    var children: seq<bool>
    var initialSizes: InitialSizes
    const orientation: Orientation
    const minSizes: map<int, real>
    const primaryPaneIndex: Option<int>
    /** Whether an `onSizeChange` observer is set. */
    const hasObserver: bool

    /** Index of the splitter being dragged (`null` until one is grabbed). */
    var activeSplitter: Option<nat>
    /** The box of each splitter, captured when it is grabbed. */
    var splitterDimensions: map<nat, Rect>
    /** `this.splitters.length`: render creates one record per handle. */
    var splitterCount: nat
    var splitNum: nat
    /** `this.panes[i].size` for each pane record render has created. */
    var paneCache: seq<real>
    var paneNum: nat
    /** The container extent measured last. */
    var containerSize: real
    /** `this.state.paneSizes`. */
    var paneSizes: seq<real>
    /** `this.state.resizing`. */
    var resizing: bool

    /** Every splitter record sits before the pane record after it, and a
        drag in progress has a captured splitter box and sizes for both of
        its panes. */
    ghost predicate Valid()
      reads this
    {
      && (splitterCount == 0 || splitterCount < |paneCache|)
      && (resizing ==>
            && activeSplitter.Some?
            && activeSplitter.value < splitterCount
            && activeSplitter.value in splitterDimensions
            && activeSplitter.value + 1 < |paneSizes|)
    }

    constructor(children: seq<bool>, initialSizes: InitialSizes, orientation: Orientation,
                minSizes: map<int, real>, primaryPaneIndex: Option<int>, hasObserver: bool)
      ensures Valid()
      ensures this.children == children && this.initialSizes == initialSizes
      ensures this.orientation == orientation && this.minSizes == minSizes
      ensures this.primaryPaneIndex == primaryPaneIndex && this.hasObserver == hasObserver
      ensures activeSplitter == None && splitterDimensions == map[] && splitterCount == 0
      ensures paneCache == [] && paneSizes == [] && !resizing
    {
      this.children := children;
      this.initialSizes := initialSizes;
      this.orientation := orientation;
      this.minSizes := minSizes;
      this.primaryPaneIndex := primaryPaneIndex;
      this.hasObserver := hasObserver;
      activeSplitter := None;
      splitterDimensions := map[];
      splitterCount := 0;
      splitNum := 0;
      paneCache := [];
      paneNum := 0;
      containerSize := 0.0;
      paneSizes := [];
      resizing := false;
    }

    /** `calculateInitialPaneSizes`: measures the container, converts and
        checks the `initialSizes` entries (writing the converted values back
        into an object), and writes the layout over the front of the state's
        sizes. A NaN entry throws before any size is written. */
    method CalculateInitialPaneSizes(container: Rect) returns (r: Result<seq<real>, LayoutError>)
      requires Valid()
      modifies this`containerSize, this`initialSizes, this`paneSizes
      ensures Valid()
      ensures containerSize == Extent(orientation, container)
      ensures r == InitialLayout(|children|, HintsOf(old(initialSizes)), containerSize)
      ensures r.Success? ==> paneSizes == Overlay(old(paneSizes), r.value)
      ensures r.Failure? ==> paneSizes == old(paneSizes)
      ensures initialSizes == AfterConversion(old(initialSizes), containerSize)
    {
      containerSize := Extent(orientation, container);
      var entries, share, failed := ConvertAndShare(|children|);
      if failed {
        return Failure(InvalidInitialSize);
      }
      r := FillPaneSizes(|children|, entries, share);
    }

    /** The part of `calculateInitialPaneSizes` before the panes are sized:
        converts the `initialSizes` entries (failing at a NaN) and works out
        the share of the panes without an explicit size. */
    method ConvertAndShare(n: nat) returns (entries: seq<Entry>, share: Option<real>, failed: bool)
      modifies this`initialSizes
      ensures initialSizes == AfterConversion(old(initialSizes), containerSize)
      ensures failed ==> InitialLayout(n, HintsOf(old(initialSizes)), containerSize) == Failure(InvalidInitialSize)
      ensures !failed ==>
        InitialLayout(n, HintsOf(old(initialSizes)), containerSize) ==
          (if share.None? && NeedsDefault(entries, n) then Failure(DivisionByZero)
           else Success(Fill(n, entries, share.GetOr(0.0))))
    {
      var hints := HintsOf(initialSizes);
      LayoutOfConverted(n, hints, containerSize);
      entries := [];
      failed := false;
      if hints.Some? {
        var remaining, defaultPanes;
        entries, remaining, defaultPanes, failed := ConvertInitialSizes(n, hints.value);
        share := DefaultShare(remaining, n, defaultPanes);
      } else {
        share := DefaultShare(containerSize, n, n);
      }
    }

    /** The `forEach` over the keys of `initialSizes`: converts each value in
        turn, writing it back into an object, and stops at the first NaN (the
        source throws there). Otherwise yields the converted entries, the
        extent they leave and the number of panes still to size. */
    method ConvertInitialSizes(n: nat, given: seq<Entry>)
      returns (entries: seq<Entry>, remaining: real, defaultPanes: int, failed: bool)
      requires HintsOf(initialSizes) == Some(given)
      modifies this`initialSizes
      ensures initialSizes == AfterConversion(old(initialSizes), containerSize)
      ensures failed <==> FirstNaN(ConvertPrefix(given, |given|, containerSize)).Some?
      ensures !failed ==>
        && entries == ConvertPrefix(given, |given|, containerSize)
        && remaining == containerSize - SumPixels(entries)
        && defaultPanes == n - |given|
    {
      entries := given;
      remaining := containerSize;
      defaultPanes := n;
      var k := 0;
      assert ConvertPrefix(given, 0, containerSize) == given;
      while k < |entries|
        invariant ConvertedUpTo(given, k, containerSize, entries, remaining)
        invariant defaultPanes == n - k
        invariant initialSizes == if old(initialSizes).Fixed? then Fixed(entries) else old(initialSizes)
      {
        var converted := ConvertHint(entries[k].hint, containerSize);
        ConvertStep(given, k, containerSize, entries, remaining);
        entries := entries[k := entries[k].(hint := converted)];
        if initialSizes.Fixed? {
          initialSizes := Fixed(entries);
        }
        if converted.NotANumber? {
          return entries, remaining, defaultPanes, true;
        }
        remaining := remaining - converted.size;
        defaultPanes := defaultPanes - 1;
        k := k + 1;
      }
      ConvertedAll(given, containerSize, entries, remaining);
      failed := false;
    }

    /** The `for` loop over the panes: each takes its explicit size or the
        default share, written over the front of the state's sizes. Where a
        pane needs the share and the source divided by zero, nothing is
        written. */
    method FillPaneSizes(n: nat, entries: seq<Entry>, share: Option<real>) returns (r: Result<seq<real>, LayoutError>)
      modifies this`paneSizes
      ensures r == if share.None? && NeedsDefault(entries, n) then Failure(DivisionByZero)
                   else Success(Fill(n, entries, share.GetOr(0.0)))
      ensures r.Success? ==> paneSizes == Overlay(old(paneSizes), r.value)
      ensures r.Failure? ==> paneSizes == old(paneSizes)
    {
      var sizes := paneSizes;
      var fallback := share.GetOr(0.0);
      var layout: seq<real> := [];
      var i := 0;
      assert sizes == Overlay(paneSizes, layout) by {
        assert paneSizes[0..] == paneSizes;
      }
      while i < n
        invariant i <= n
        invariant layout == Fill(i, entries, fallback)
        invariant share.None? ==> !NeedsDefault(entries, i)
        invariant paneSizes == old(paneSizes) && sizes == Overlay(paneSizes, layout)
      {
        var size: real;
        match ExplicitSize(entries, i) {
          case Some(v) =>
            size := v;
          case None =>
            if share.None? {
              // the source stores an infinite or NaN size here
              assert NeedsDefault(entries, n) by {
                assert 0 <= i < n && ExplicitSize(entries, i).None?;
              }
              return Failure(DivisionByZero);
            }
            size := share.value;
        }
        FillGrows(i, entries, fallback);
        OverlayPut(paneSizes, layout, size);
        sizes := Put(sizes, i, size);
        layout := layout + [size];
        i := i + 1;
      }
      paneSizes := sizes;
      r := Success(layout);
    }

    /** `checkForContainerResize`: with a primary pane set and a container
        whose extent changed, records the new extent and spreads the change
        over the secondary panes; otherwise nothing changes. `diverged`
        reports the case where the source would store infinite sizes. */
    method CheckForContainerResize(container: Rect) returns (diverged: bool)
      requires Valid()
      modifies this`containerSize, this`paneSizes
      ensures Valid()
      ensures primaryPaneIndex.None? || Extent(orientation, container) == old(containerSize) ==>
        containerSize == old(containerSize) && paneSizes == old(paneSizes) && !diverged
      ensures primaryPaneIndex.Some? && Extent(orientation, container) != old(containerSize) ==>
        && containerSize == Extent(orientation, container)
        && var spread := Redistribute(old(paneSizes), primaryPaneIndex.value, |paneCache|,
                                      containerSize - old(containerSize));
           (spread.Some? ==> paneSizes == spread.value && !diverged)
           && (spread.None? ==> paneSizes == old(paneSizes) && diverged)
    {
      diverged := false;
      if primaryPaneIndex.Some? {
        var oldContainerSize := containerSize;
        var newContainerSize := Extent(orientation, container);
        if newContainerSize != oldContainerSize {
          containerSize := newContainerSize;
          diverged := CalculateSecondaryPaneSizes(oldContainerSize, newContainerSize);
        }
      }
    }

    /** `calculateSecondaryPaneSizes`: every size but the primary one grows
        by the change in extent divided by `panes.length - 1`. */
    method CalculateSecondaryPaneSizes(oldContainerSize: real, newContainerSize: real) returns (diverged: bool)
      requires Valid()
      modifies this`paneSizes
      ensures Valid()
      ensures var spread := Redistribute(old(paneSizes), PrimaryPosition(primaryPaneIndex), |paneCache|,
                                         newContainerSize - oldContainerSize);
        (spread.Some? ==> paneSizes == spread.value && !diverged)
        && (spread.None? ==> paneSizes == old(paneSizes) && diverged)
    {
      var primary := PrimaryPosition(primaryPaneIndex);
      var adjustment := Adjustment(newContainerSize - oldContainerSize, |paneCache|);
      var sizes := paneSizes;
      var i := 0;
      while i < |sizes|
        invariant i <= |sizes| == |paneSizes|
        invariant forall j :: 0 <= j < i ==>
          sizes[j] == if j == primary then paneSizes[j] else paneSizes[j] + adjustment.GetOr(0.0)
        invariant forall j :: i <= j < |sizes| ==> sizes[j] == paneSizes[j]
        invariant adjustment.None? ==> !HasSecondary(i, primary)
      {
        if i != primary {
          if adjustment.None? {
            // the source stores an infinite size here
            return true;
          }
          sizes := sizes[i := sizes[i] + adjustment.value];
        }
        i := i + 1;
      }
      if adjustment.None? {
        assert sizes == paneSizes;
      } else {
        assert sizes == AddExcept(paneSizes, primary, adjustment.value);
      }
      paneSizes := sizes;
      diverged := false;
    }

    /** `onGrabSplitter`: captures the box of the grabbed handle, measures the
        container and starts a drag. Handles exist only for rendered
        splitters, which sit between two panes with computed sizes. */
    method OnGrabSplitter(splitterIndex: nat, splitterBox: Rect, container: Rect)
      requires Valid()
      requires splitterIndex < splitterCount && splitterIndex + 1 < |paneSizes|
      modifies this`splitterDimensions, this`activeSplitter, this`containerSize, this`resizing
      ensures Valid()
      ensures splitterDimensions == old(splitterDimensions)[splitterIndex := splitterBox]
      ensures activeSplitter == Some(splitterIndex)
      ensures containerSize == Extent(orientation, container)
      ensures resizing
    {
      splitterDimensions := splitterDimensions[splitterIndex := splitterBox];
      activeSplitter := Some(splitterIndex);
      containerSize := Extent(orientation, container);
      resizing := true;
    }

    /** `calculatePaneSizes`: the drag step for the active splitter. The pane
        records cache the primary size before its upper bound and the
        secondary size; the state takes both committed sizes. With an
        observer the whole list of sizes is reported against the measured
        container extent. */
    method CalculatePaneSizes(splitterIndex: nat, pointer: Point, pane1: Rect, pane2: Rect, container: Rect)
      returns (report: Option<seq<SizeReport>>)
      requires Valid()
      requires splitterIndex in splitterDimensions
      requires splitterIndex + 1 < |paneCache| && splitterIndex + 1 < |paneSizes|
      modifies this`paneCache, this`paneSizes
      ensures Valid()
      ensures var d := DragFromBoxes(orientation, pointer, pane1, pane2, splitterDimensions[splitterIndex],
                                     MinSizeOf(minSizes, splitterIndex), MinSizeOf(minSizes, splitterIndex + 1));
        && paneCache == old(paneCache)[splitterIndex := d.raised][splitterIndex + 1 := d.secondary]
        && paneSizes == old(paneSizes)[splitterIndex := d.primary][splitterIndex + 1 := d.secondary]
      ensures report == if hasObserver then Some(SizeReports(paneSizes, Extent(orientation, container))) else None
    {
      var d := DragFromBoxes(orientation, pointer, pane1, pane2, splitterDimensions[splitterIndex],
                             MinSizeOf(minSizes, splitterIndex), MinSizeOf(minSizes, splitterIndex + 1));
      paneCache := paneCache[splitterIndex := d.raised][splitterIndex + 1 := d.secondary];
      paneSizes := paneSizes[splitterIndex := d.primary][splitterIndex + 1 := d.secondary];
      if hasObserver {
        report := Some(SizeReports(paneSizes, Extent(orientation, container)));
      } else {
        report := None;
      }
    }

    /** `onMouseMove`: during a drag, first the container-resize check (the
        `splitterResize` event is dispatched synchronously), then the drag
        step; outside a drag nothing happens. */
    method OnMouseMove(pointer: Point, container: Rect, pane1: Rect, pane2: Rect)
      returns (report: Option<seq<SizeReport>>, diverged: bool)
      requires Valid()
      modifies this`containerSize, this`paneSizes, this`paneCache
      ensures Valid()
      ensures !resizing ==>
        paneSizes == old(paneSizes) && paneCache == old(paneCache) && containerSize == old(containerSize)
        && report.None? && !diverged
      ensures resizing ==>
        var extent := Extent(orientation, container);
        var resized := primaryPaneIndex.Some? && extent != old(containerSize);
        var spread := Redistribute(old(paneSizes), PrimaryPosition(primaryPaneIndex), |paneCache|,
                                   extent - old(containerSize));
        var base := if resized && spread.Some? then spread.value else old(paneSizes);
        var p := activeSplitter.value;
        var d := DragFromBoxes(orientation, pointer, pane1, pane2, splitterDimensions[p],
                               MinSizeOf(minSizes, p), MinSizeOf(minSizes, p + 1));
        && containerSize == (if primaryPaneIndex.Some? then extent else old(containerSize))
        && diverged == (resized && spread.None?)
        && p + 1 < |base|
        && paneSizes == base[p := d.primary][p + 1 := d.secondary]
        && paneCache == old(paneCache)[p := d.raised][p + 1 := d.secondary]
        && report == if hasObserver then Some(SizeReports(paneSizes, Extent(orientation, container))) else None
    {
      report, diverged := None, false;
      if resizing {
        diverged := CheckForContainerResize(container);
        report := CalculatePaneSizes(activeSplitter.value, pointer, pane1, pane2, container);
      }
    }

    /** `onMouseUp`: ends any drag. */
    method OnMouseUp()
      requires Valid()
      modifies this`resizing
      ensures Valid() && !resizing
    {
      resizing := false;
    }

    /** `render`: one pane per child and a handle after every child whose
        successor is truthy; creates the pane and splitter records it needs
        and caches each pane's size. */
    method Render() returns (items: seq<RenderItem>)
      requires Valid()
      modifies this`paneCache, this`paneNum, this`splitNum, this`splitterCount
      ensures Valid()
      ensures items == RenderItems(children, paneSizes, |children|)
      ensures paneCache == Overlay(old(paneCache), CacheFor(paneSizes, |children|))
      ensures paneNum == |children| && splitNum == SplittersBefore(children, |children|)
      ensures splitterCount == if old(splitterCount) > splitNum then old(splitterCount) else splitNum
    {
      items := [];
      paneNum, splitNum := 0, 0;
      var index := 0;
      assert paneCache == Overlay(old(paneCache), CacheFor(paneSizes, 0)) by {
        assert old(paneCache)[0..] == old(paneCache);
      }
      while index < |children|
        invariant index <= |children|
        invariant paneNum == index && splitNum == SplittersBefore(children, index) && splitNum <= index
        invariant items == RenderItems(children, paneSizes, index)
        invariant paneCache == Overlay(old(paneCache), CacheFor(paneSizes, index))
        invariant splitterCount == if old(splitterCount) > splitNum then old(splitterCount) else splitNum
      {
        items := RenderChild(index, old(paneCache), old(splitterCount), items);
        index := index + 1;
      }
      SplittersBound(children, |children|);
    }

    /** One step of render's `forEach`: the pane for child `index`, then a
        handle when the next child is truthy, appended to what the children
        before it rendered. `cache` and `count` are the pane records and the
        number of splitter records before render started. */
    method RenderChild(index: nat, ghost cache: seq<real>, ghost count: nat, items: seq<RenderItem>)
      returns (next: seq<RenderItem>)
      requires index < |children|
      requires paneNum == index && splitNum == SplittersBefore(children, index) && splitNum <= index
      requires items == RenderItems(children, paneSizes, index)
      requires paneCache == Overlay(cache, CacheFor(paneSizes, index))
      requires splitterCount == if count > splitNum then count else splitNum
      modifies this`paneCache, this`paneNum, this`splitNum, this`splitterCount
      ensures paneNum == index + 1 && splitNum == SplittersBefore(children, index + 1) && splitNum <= index + 1
      ensures next == RenderItems(children, paneSizes, index + 1)
      ensures paneCache == Overlay(cache, CacheFor(paneSizes, index + 1))
      ensures splitterCount == if count > splitNum then count else splitNum
    {
      var paneIndex := paneNum;
      var splitIndex := splitNum;
      assert |CacheFor(paneSizes, index)| == index;
      paneCache := Put(paneCache, paneIndex, CachedSize(paneSizes, paneIndex));
      assert paneCache == Overlay(cache, CacheFor(paneSizes, index + 1)) by {
        OverlayPut(cache, CacheFor(paneSizes, index), CachedSize(paneSizes, index));
      }
      next := items + [PaneItem(paneIndex, SizeAt(paneSizes, paneIndex))];
      if SplitterAfter(children, index) {
        if splitterCount <= splitIndex {
          splitterCount := splitIndex + 1;
        }
        next := next + [SplitterItem(splitIndex)];
        splitNum := splitNum + 1;
      }
      paneNum := paneNum + 1;
    }

    /** `componentWillReceiveProps`: the new children replace the old ones,
        and the layout is calculated again only when their number changed. */
    method ReceiveChildren(next: seq<bool>, container: Rect) returns (r: Option<Result<seq<real>, LayoutError>>)
      requires Valid()
      modifies this`children, this`containerSize, this`initialSizes, this`paneSizes
      ensures Valid()
      ensures children == next
      ensures |next| == |old(children)| ==>
        r.None? && paneSizes == old(paneSizes) && initialSizes == old(initialSizes)
        && containerSize == old(containerSize)
      ensures |next| != |old(children)| ==>
        && containerSize == Extent(orientation, container)
        && r == Some(InitialLayout(|next|, HintsOf(old(initialSizes)), containerSize))
        && initialSizes == AfterConversion(old(initialSizes), containerSize)
        && (r.value.Success? ==> paneSizes == Overlay(old(paneSizes), r.value.value))
        && (r.value.Failure? ==> paneSizes == old(paneSizes))
    {
      var changed := |next| != |children|;
      children := next;
      if changed {
        var outcome := CalculateInitialPaneSizes(container);
        r := Some(outcome);
      } else {
        r := None;
      }
    }
  }

  /** Each child adds at most one splitter, and the last child none. */
  lemma {:induction false} SplittersBound(children: seq<bool>, k: nat)
    requires k <= |children|
    ensures SplittersBefore(children, k) <= k
    ensures 0 < k == |children| ==> SplittersBefore(children, k) < k
  {
    if k > 0 {
      SplittersBound(children, k - 1);
    }
  }

  /** Conversion stops at entry `k` when it comes out NaN: the object then
      holds the first `k + 1` converted entries and the layout fails. */
  lemma NaNStopsConversion(es: seq<Entry>, k: nat, container: real)
    requires k < |es|
    requires forall j :: 0 <= j < k ==> !ConvertHint(es[j].hint, container).NotANumber?
    requires ConvertHint(es[k].hint, container).NotANumber?
    ensures FirstNaN(ConvertPrefix(es, |es|, container)) == Some(k)
    ensures ConvertedCount(es, container) == k + 1
  {
    var conv := ConvertPrefix(es, |es|, container);
    assert IsNaN(conv[k]);
    assert forall j :: 0 <= j < k ==> !IsNaN(conv[j]);
  }

  /** The state of the conversion loop after `k` entries: those are
      converted and none is NaN, and their values are off the extent. */
  ghost predicate ConvertedUpTo(given: seq<Entry>, k: nat, container: real, entries: seq<Entry>, remaining: real) {
    && k <= |given|
    && entries == ConvertPrefix(given, k, container)
    && (forall j :: 0 <= j < k ==> !IsNaN(entries[j]))
    && remaining == container - SumPixels(entries[..k])
  }

  /** Converting entry `k` either stops the loop at the first NaN or moves
      it on by one entry. */
  lemma ConvertStep(given: seq<Entry>, k: nat, container: real, entries: seq<Entry>, remaining: real)
    requires ConvertedUpTo(given, k, container, entries, remaining) && k < |given|
    ensures entries[k] == given[k]
    ensures var converted := ConvertHint(given[k].hint, container);
      var next := entries[k := entries[k].(hint := converted)];
      && next == ConvertPrefix(given, k + 1, container)
      && (converted.NotANumber? ==>
            FirstNaN(ConvertPrefix(given, |given|, container)).Some? && ConvertedCount(given, container) == k + 1)
      && (!converted.NotANumber? ==> ConvertedUpTo(given, k + 1, container, next, remaining - converted.size))
  {
    var converted := ConvertHint(given[k].hint, container);
    var next := entries[k := entries[k].(hint := converted)];
    if converted.NotANumber? {
      NaNStopsConversion(given, k, container);
    } else {
      assert next[..k + 1] == entries[..k] + [next[k]];
    }
  }

  /** When the loop has run through every entry, none was NaN. */
  lemma ConvertedAll(given: seq<Entry>, container: real, entries: seq<Entry>, remaining: real)
    requires ConvertedUpTo(given, |given|, container, entries, remaining)
    ensures FirstNaN(ConvertPrefix(given, |given|, container)).None?
    ensures ConvertedCount(given, container) == |given|
    ensures entries == ConvertPrefix(given, |given|, container)
    ensures remaining == container - SumPixels(entries)
  {
    assert entries[..|given|] == entries;
  }

  /** An object that has been through one calculation without a NaN holds
      only pixel values: a later calculation, against any container, finds
      nothing left to convert and so uses the sizes the first container
      gave (a function is called afresh and does not keep them). */
  lemma ObjectKeepsFirstConversion(es: seq<Entry>, first: real, later: real)
    requires FirstNaN(ConvertPrefix(es, |es|, first)).None?
    ensures HintsOf(AfterConversion(Fixed(es), first)) == Some(ConvertPrefix(es, |es|, first))
    ensures var conv := ConvertPrefix(es, |es|, first);
      ConvertPrefix(conv, |conv|, later) == conv
  {
  }

  /** The layout in terms of what the conversion loop yields. */
  lemma LayoutOfConverted(n: nat, hints: Option<seq<Entry>>, container: real)
    ensures var es := EntriesOf(hints);
      var conv := ConvertPrefix(es, |es|, container);
      && (FirstNaN(conv).Some? ==> InitialLayout(n, hints, container) == Failure(InvalidInitialSize))
      && (FirstNaN(conv).None? ==>
            var share := DefaultShare(container - SumPixels(conv), n, n - |es|);
            InitialLayout(n, hints, container) ==
              if share.None? && NeedsDefault(conv, n) then Failure(DivisionByZero)
              else Success(Fill(n, conv, share.GetOr(0.0))))
  {
    if hints.None? {
      assert ConvertPrefix([], 0, container) == [];
    }
  }

}
