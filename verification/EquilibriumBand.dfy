/** The ten-second equilibrium window of firmware/src/heater_supply.rs. */
module EquilibriumBand {
  import opened Arithmetic

  const WINDOW_MS := 10_000
  const BAND_CENTI_C := 100

  datatype Window = Window(startedMs: Option<u32>, minCentiC: i16, maxCentiC: i16)

  const EMPTY_WINDOW := Window(None, 0, 0)

  datatype Observed = Observed(window: Window, stable: bool)

  /** A window that holds one reading. */
  function Opened(nowMs: u32, centiC: i16): Window { Window(Some(nowMs), centiC, centiC) }

  /** One observation: it opens the window, widens it, or restarts it when the band is exceeded. */
  function Observe(w: Window, nowMs: u32, centiC: i16): Observed
  {
    if w.startedMs.None? then Observed(Opened(nowMs, centiC), false)
    else
      var lo := Min(w.minCentiC, centiC);
      var hi := Max(w.maxCentiC, centiC);
      if hi - lo > BAND_CENTI_C then Observed(Opened(nowMs, centiC), false)
      else Observed(Window(w.startedMs, lo, hi), SatSub(nowMs, w.startedMs.value) >= WINDOW_MS)
  }

  datatype Reading = Reading(nowMs: u32, centiC: i16)

  /** The outcome of observing the readings of `h` in order, from an empty window. */
  function Watch(h: seq<Reading>): Observed
  {
    if h == [] then Observed(EMPTY_WINDOW, false)
    else
      var last := h[|h| - 1];
      Observe(Watch(h[..|h| - 1]).window, last.nowMs, last.centiC)
  }

  /** All readings of `h` lie within one 1 degree band. */
  predicate InOneBand(h: seq<Reading>)
  {
    forall i, j :: 0 <= i < |h| && 0 <= j < |h| ==> h[i].centiC - h[j].centiC <= 100
  }

  /** `w` opened with the first reading of `h`, and its bounds are the extremes of `h`. */
  ghost predicate Summarises(w: Window, h: seq<Reading>)
  {
    && |h| > 0
    && w.startedMs == Some(h[0].nowMs)
    && (forall i :: 0 <= i < |h| ==> w.minCentiC <= h[i].centiC <= w.maxCentiC)
    && (exists i :: 0 <= i < |h| && h[i].centiC == w.minCentiC)
    && (exists i :: 0 <= i < |h| && h[i].centiC == w.maxCentiC)
    && w.maxCentiC - w.minCentiC <= BAND_CENTI_C
  }

  /** A further reading that stays within the band widens the summary. */
  lemma SummaryExtends(w: Window, s: seq<Reading>, r: Reading)
    requires Summarises(w, s)
    requires Max(w.maxCentiC, r.centiC) - Min(w.minCentiC, r.centiC) <= BAND_CENTI_C
    ensures Summarises(Window(w.startedMs, Min(w.minCentiC, r.centiC), Max(w.maxCentiC, r.centiC)), s + [r])
  {
    var t := s + [r];
    assert t[|s|] == r;
    var i :| 0 <= i < |s| && s[i].centiC == w.minCentiC;
    var j :| 0 <= j < |s| && s[j].centiC == w.maxCentiC;
    assert t[i] == s[i] && t[j] == s[j];
  }

  lemma SummaryOpens(r: Reading)
    ensures Summarises(Opened(r.nowMs, r.centiC), [r])
  {
    assert [r][0] == r;
  }

  lemma SummaryInOneBand(w: Window, s: seq<Reading>)
    requires Summarises(w, s)
    ensures InOneBand(s) && s != [] && w.startedMs == Some(s[0].nowMs)
  {
  }

  lemma BandAllows(w: Window, s: seq<Reading>, r: Reading)
    requires Summarises(w, s) && InOneBand(s + [r])
    ensures Max(w.maxCentiC, r.centiC) - Min(w.minCentiC, r.centiC) <= BAND_CENTI_C
  {
    var t := s + [r];
    var i :| 0 <= i < |s| && s[i].centiC == w.minCentiC;
    var j :| 0 <= j < |s| && s[j].centiC == w.maxCentiC;
    assert t[i] == s[i] && t[j] == s[j] && t[|s|] == r;
  }

  lemma BandPrefix(s: seq<Reading>, r: Reading)
    requires InOneBand(s + [r])
    ensures InOneBand(s)
  {
    assert forall i :: 0 <= i < |s| ==> (s + [r])[i] == s[i];
  }

  /** The window always summarises some suffix of the readings, and a stable verdict means that
      this suffix stays in one band and began at least ten seconds before the last reading. */
  lemma {:induction false} StableSuffix(h: seq<Reading>) returns (k: nat)
    requires h != []
    ensures k < |h| && Summarises(Watch(h).window, h[k..]) && InOneBand(h[k..])
    ensures Watch(h).stable ==> h[|h| - 1].nowMs - h[k].nowMs >= 10_000
  {
    hide Summarises, InOneBand;
    var n := |h| - 1;
    var before := Watch(h[..n]).window;
    if n > 0 {
      k := StableSuffix(h[..n]);
      SummaryInOneBand(before, h[..n][k..]);
      if Max(before.maxCentiC, h[n].centiC) - Min(before.minCentiC, h[n].centiC) <= BAND_CENTI_C {
        SummaryExtends(before, h[..n][k..], h[n]);
        assert h[k..] == h[..n][k..] + [h[n]];
        SummaryInOneBand(Watch(h).window, h[k..]);
        return;
      }
    }
    k := n;
    assert h[n..] == [h[n]];
    SummaryOpens(h[n]);
    SummaryInOneBand(Watch(h).window, h[n..]);
  }

  /** Conversely, while every reading since the window was empty stays in one band, the verdict is
      exactly that ten seconds have passed since the first of them. */
  lemma {:induction false} SteadyIsDetected(h: seq<Reading>)
    requires h != [] && InOneBand(h)
    ensures Summarises(Watch(h).window, h)
    ensures Watch(h).stable <==> h[|h| - 1].nowMs - h[0].nowMs >= 10_000
  {
    hide Summarises, InOneBand;
    var n := |h| - 1;
    var s := h[..n];
    assert h == s + [h[n]];
    if n == 0 {
      SummaryOpens(h[0]);
    } else {
      BandPrefix(s, h[n]);
      SteadyIsDetected(s);
      var w := Watch(s).window;
      SummaryInOneBand(w, s);
      BandAllows(w, s, h[n]);
      SummaryExtends(w, s, h[n]);
    }
  }

  /** The window as the firmware keeps it: three fields updated in place. */
  class EquilibriumWindow {
    var startedMs: Option<u32>
    var minCentiC: i16
    var maxCentiC: i16

    ghost function View(): Window
      reads this
    {
      Window(startedMs, minCentiC, maxCentiC)
    }

    constructor ()
      ensures View() == EMPTY_WINDOW
    {
      startedMs, minCentiC, maxCentiC := None, 0, 0;
    }

    constructor Of(w: Window)
      ensures View() == w
    {
      startedMs, minCentiC, maxCentiC := w.startedMs, w.minCentiC, w.maxCentiC;
    }

    method Value() returns (w: Window)
      ensures w == View()
    {
      w := Window(startedMs, minCentiC, maxCentiC);
    }

    method Reset()
      modifies this
      ensures View() == EMPTY_WINDOW
    {
      startedMs, minCentiC, maxCentiC := None, 0, 0;
    }

    /** The restart is a second call on the emptied window, so the recursion is at most one deep. */
    method Note(nowMs: u32, centiC: i16) returns (stable: bool)
      modifies this
      ensures Observed(View(), stable) == Observe(old(View()), nowMs, centiC)
      decreases startedMs.Some?
    {
      if startedMs.None? {
        startedMs, minCentiC, maxCentiC := Some(nowMs), centiC, centiC;
        return false;
      }
      minCentiC := Min(minCentiC, centiC);
      maxCentiC := Max(maxCentiC, centiC);
      if maxCentiC - minCentiC > BAND_CENTI_C {
        Reset();
        stable := Note(nowMs, centiC);
        return;
      }
      var elapsed := SatSub(nowMs, startedMs.value);
      stable := elapsed >= WINDOW_MS;
    }
  }
}
