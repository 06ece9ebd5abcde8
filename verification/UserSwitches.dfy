/** ArgsBuilder::addUserSwitches: the user's linker and cc switches, merged back
    into command-line order. */
module UserSwitches {

  const UNSIGNED_MAX := 0xFFFF_FFFF

  type Unsigned = x: int | 0 <= x <= UNSIGNED_MAX

  /** A switch with its position on the command line. */
  datatype Switch = Switch(pos: Unsigned, text: string)

  datatype Item = Linker(sw: Switch) | Cc(sw: Switch)

  /** Linker switches the cc driver must see itself are not wrapped. */
  predicate DriverSwitch(p: string) {
    "-l" <= p || "-L" <= p || "-Wl," <= p || "-shared" <= p || "-static" <= p
  }

  function Render(item: Item): seq<string> {
    if item.Linker? && !DriverSwitch(item.sw.text) then ["-Xlinker", item.sw.text] else [item.sw.text]
  }

  function RenderAll(items: seq<Item>): seq<string> {
    if items == [] then [] else Render(items[0]) + RenderAll(items[1..])
  }

  /** The position at the head of a list; an exhausted list counts as the sentinel. */
  function Head(s: seq<Switch>): Unsigned {
    if s == [] then UNSIGNED_MAX else s[0].pos
  }

  function Merge(link: seq<Switch>, cc: seq<Switch>): seq<Item>
    decreases |link| + |cc|
  {
    if Head(link) < Head(cc) then [Linker(link[0])] + Merge(link[1..], cc)
    else if Head(cc) < Head(link) then [Cc(cc[0])] + Merge(link, cc[1..])
    else []
  }

  class ArgsBuilder {
    var args: seq<string>

    method AddUserSwitches(link: seq<Switch>, cc: seq<Switch>)
      modifies this
      ensures args == old(args) + RenderAll(Merge(link, cc))
    {
      hide DriverSwitch, RenderAll, Merge;
      ghost var done: seq<Item> := [];
      var ilink, icc := 0, 0;
      assert link[0..] == link && cc[0..] == cc;
      RenderNone();
      while true
        invariant ilink <= |link| && icc <= |cc|
        invariant done + Merge(link[ilink..], cc[icc..]) == Merge(link, cc)
        invariant args == old(args) + RenderAll(done)
        decreases |link| - ilink + |cc| - icc
      {
        var linkpos := if ilink < |link| then link[ilink].pos else UNSIGNED_MAX;
        var ccpos := if icc < |cc| then cc[icc].pos else UNSIGNED_MAX;
        MergeHead(link, ilink, cc, icc);
        if linkpos < ccpos {
          var p := link[ilink].text;
          RenderSnoc(done, Linker(link[ilink]));
          done := done + [Linker(link[ilink])];
          ilink := ilink + 1;
          if !DriverSwitch(p) {
            args := args + ["-Xlinker"];
          }
          args := args + [p];
        } else if ccpos < linkpos {
          RenderSnoc(done, Cc(cc[icc]));
          done := done + [Cc(cc[icc])];
          args := args + [cc[icc].text];
          icc := icc + 1;
        } else {
          assert done + [] == done;
          break;
        }
      }
    }
  }

  lemma {:induction false} MergeHead(link: seq<Switch>, i: nat, cc: seq<Switch>, j: nat)
    requires i <= |link| && j <= |cc|
    ensures var m := Merge(link[i..], cc[j..]);
      var a := if i < |link| then link[i].pos else UNSIGNED_MAX;
      var b := if j < |cc| then cc[j].pos else UNSIGNED_MAX;
      if a < b then i < |link| && m == [Linker(link[i])] + Merge(link[i + 1..], cc[j..])
      else if b < a then j < |cc| && m == [Cc(cc[j])] + Merge(link[i..], cc[j + 1..])
      else m == []
  {
    assert i < |link| ==> link[i..][1..] == link[i + 1..];
    assert j < |cc| ==> cc[j..][1..] == cc[j + 1..];
  }

  lemma RenderNone()
    ensures RenderAll([]) == []
  {
  }

  lemma {:induction false} RenderSnoc(items: seq<Item>, item: Item)
    ensures RenderAll(items + [item]) == RenderAll(items) + Render(item)
    decreases |items|
  {
    if items == [] {
      assert items + [item] == [item];
    } else {
      assert (items + [item])[1..] == items[1..] + [item];
      RenderSnoc(items[1..], item);
    }
  }

  // ----- the merge is the command line's order

  predicate Increasing(s: seq<Switch>) {
    forall i, j :: 0 <= i < j < |s| ==> s[i].pos < s[j].pos
  }

  predicate BelowSentinel(s: seq<Switch>) {
    forall i :: 0 <= i < |s| ==> s[i].pos < UNSIGNED_MAX
  }

  predicate Disjoint(a: seq<Switch>, b: seq<Switch>) {
    forall i, j :: 0 <= i < |a| && 0 <= j < |b| ==> a[i].pos != b[j].pos
  }

  function LinkerPart(items: seq<Item>): seq<Switch> {
    if items == [] then []
    else (if items[0].Linker? then [items[0].sw] else []) + LinkerPart(items[1..])
  }

  function CcPart(items: seq<Item>): seq<Switch> {
    if items == [] then []
    else (if items[0].Cc? then [items[0].sw] else []) + CcPart(items[1..])
  }

  /** Whatever the positions are, nothing is repeated, reordered or invented. */
  lemma {:induction false} MergeParts(link: seq<Switch>, cc: seq<Switch>)
    ensures LinkerPart(Merge(link, cc)) <= link && CcPart(Merge(link, cc)) <= cc
    ensures |Merge(link, cc)| == |LinkerPart(Merge(link, cc))| + |CcPart(Merge(link, cc))|
    decreases |link| + |cc|
  {
    var m := Merge(link, cc);
    if Head(link) < Head(cc) {
      MergeParts(link[1..], cc);
      assert m[1..] == Merge(link[1..], cc);
      assert link == [link[0]] + link[1..];
    } else if Head(cc) < Head(link) {
      MergeParts(link, cc[1..]);
      assert m[1..] == Merge(link, cc[1..]);
      assert cc == [cc[0]] + cc[1..];
    }
  }

  /** In the result positions only grow. */
  lemma {:induction false} MergeIncreasing(link: seq<Switch>, cc: seq<Switch>)
    requires Increasing(link) && Increasing(cc)
    ensures forall i :: 0 <= i < |Merge(link, cc)| ==>
      Merge(link, cc)[i].sw.pos >= (if Head(link) < Head(cc) then Head(link) else Head(cc))
    ensures forall i, j :: 0 <= i < j < |Merge(link, cc)| ==>
      Merge(link, cc)[i].sw.pos < Merge(link, cc)[j].sw.pos
    decreases |link| + |cc|
  {
    if Head(link) < Head(cc) {
      MergeIncreasing(link[1..], cc);
    } else if Head(cc) < Head(link) {
      MergeIncreasing(link, cc[1..]);
    }
  }

  lemma {:induction false} MergeAll(link: seq<Switch>, cc: seq<Switch>)
    requires Increasing(link) && Increasing(cc)
    requires BelowSentinel(link) && BelowSentinel(cc) && Disjoint(link, cc)
    ensures |Merge(link, cc)| == |link| + |cc|
    decreases |link| + |cc|
  {
    if Head(link) < Head(cc) {
      MergeAll(link[1..], cc);
    } else if Head(cc) < Head(link) {
      MergeAll(link, cc[1..]);
    }
  }

  lemma {:induction false} AllMerged(link: seq<Switch>, cc: seq<Switch>)
    requires Increasing(link) && Increasing(cc) && |Merge(link, cc)| == |link| + |cc|
    ensures BelowSentinel(link) && BelowSentinel(cc) && Disjoint(link, cc)
    decreases |link| + |cc|
  {
    MergeParts(link, cc);
    hide LinkerPart, CcPart;
    if Head(link) < Head(cc) {
      AllMerged(link[1..], cc);
      assert forall i :: 0 < i < |link| ==> link[i] == link[1..][i - 1];
    } else if Head(cc) < Head(link) {
      AllMerged(link, cc[1..]);
      assert forall i :: 0 < i < |cc| ==> cc[i] == cc[1..][i - 1];
    }
  }

  /** Every switch is passed on, exactly once and in command-line order, if and only
      if no position occurs in both lists and none is the sentinel. */
  lemma MergeComplete(link: seq<Switch>, cc: seq<Switch>)
    requires Increasing(link) && Increasing(cc)
    ensures LinkerPart(Merge(link, cc)) == link && CcPart(Merge(link, cc)) == cc
      <==> BelowSentinel(link) && BelowSentinel(cc) && Disjoint(link, cc)
    ensures forall i, j :: 0 <= i < j < |Merge(link, cc)| ==>
      Merge(link, cc)[i].sw.pos < Merge(link, cc)[j].sw.pos
  {
    MergeParts(link, cc);
    MergeIncreasing(link, cc);
    if BelowSentinel(link) && BelowSentinel(cc) && Disjoint(link, cc) {
      MergeAll(link, cc);
    }
    if LinkerPart(Merge(link, cc)) == link && CcPart(Merge(link, cc)) == cc {
      AllMerged(link, cc);
    }
  }

  // ----- switches written out

  /** A single linker switch as it reaches the cc driver. */
  function Passed(p: string): seq<string> { RenderAll(Merge([Switch(0, p)], [])) }

  lemma PassedIs(p: string)
    ensures Passed(p) == Render(Linker(Switch(0, p)))
  {
    hide Render;
    var none: seq<Switch> := [];
    var one, item := [Switch(0, p)], [Linker(Switch(0, p))];
    assert one[1..] == none && Merge(none, none) == [] && item + [] == item;
    assert Merge(one, none) == item;
    RenderNone();
    RenderSnoc([], item[0]);
    assert [] + item == item && [] + Render(item[0]) == Render(item[0]);
  }

  /** Libraries, library paths, -Wl, -shared and -static options go to the cc driver
      itself. */
  lemma ForDriver(x: string)
    ensures Passed("-l" + x) == ["-l" + x] && Passed("-L" + x) == ["-L" + x] && Passed("-Wl," + x) == ["-Wl," + x]
    ensures Passed("-shared" + x) == ["-shared" + x] && Passed("-static" + x) == ["-static" + x]
  {
    hide Passed;
    PassedIs("-l" + x);
    PassedIs("-L" + x);
    PassedIs("-Wl," + x);
    PassedIs("-shared" + x);
    PassedIs("-static" + x);
  }

  /** Everything else is wrapped: what does not start with a dash, what has another
      letter behind it, and what only begins like one of those. */
  lemma ForLinker(p: string)
    requires || |p| < 2 || p[0] != '-' || p[1] !in {'l', 'L', 'W', 's'}
             || (p[1] == 'W' && (|p| < 4 || p[2] != 'l' || p[3] != ','))
             || (p[1] == 's' && (|p| < 7 || (p[2..7] != "hared" && p[2..7] != "tatic")))
    ensures Passed(p) == ["-Xlinker", p]
  {
    PassedIs(p);
    hide Passed;
    var w, h, t: string := "-Wl,", "-shared", "-static";
    assert w[1] == 'W' && w[2] == 'l' && w[3] == ',' && h[1] == t[1] == 's' && h[2..] == "hared" && t[2..] == "tatic";
    assert |p| >= 7 ==> p[..7][2..] == p[2..7];
  }

  /** A cc switch is never wrapped. */
  lemma CcSwitch(p: string)
    ensures RenderAll(Merge([], [Switch(0, p)])) == [p]
  {
    var none: seq<Switch> := [];
    var one, item := [Switch(0, p)], [Cc(Switch(0, p))];
    assert one[1..] == none && Merge(none, none) == [] && item + [] == item;
    assert Merge(none, one) == item;
    hide DriverSwitch;
    RenderNone();
    RenderSnoc([], item[0]);
    assert [] + item == item && [] + [p] == [p];
  }

  /** The largest unsigned position is taken for the end of a list. */
  lemma Sentinel(p: string)
    ensures Merge([Switch(0xFFFF_FFFE, p)], []) == [Linker(Switch(0xFFFF_FFFE, p))]
    ensures Merge([Switch(0xFFFF_FFFF, p)], []) == []
  {
    var none: seq<Switch> := [];
    var one := [Switch(0xFFFF_FFFE, p)];
    assert one[1..] == none && Merge(none, none) == [];
  }
}
