/**
 * Cutting text into markers and plain stretches, and splitting two texts into a
 * shared prefix, a shared suffix and what differs, aligned on markers.
 */
module DiffSplit {
  import opened Words

  datatype Segment = Marker(value: string) | Plain(value: string)

  datatype Split = Split(prefix: string, suffix: string, left: string, right: string)

  function Join(segments: seq<Segment>): string {
    if segments == [] then "" else segments[0].value + Join(segments[1..])
  }

  lemma {:induction false} JoinConcat(a: seq<Segment>, b: seq<Segment>)
    ensures Join(a + b) == Join(a) + Join(b)
  {
    if a == [] {
      assert a + b == b;
    } else {
      assert (a + b)[1..] == a[1..] + b;
      JoinConcat(a[1..], b);
    }
  }

  lemma {:induction false} JoinOne(s: Segment)
    ensures Join([s]) == s.value
  {
    assert [s][1..] == [];
  }

  // ---------- segmentation ----------

  predicate Opens(c: char) { c == '<' || c == '[' }

  predicate Closes(opener: char, c: char) { (opener == '<' && c == '>') || (opener == '[' && c == ']') }

  predicate NonEmpty(segments: seq<Segment>) {
    forall i :: 0 <= i < |segments| ==> segments[i].value != ""
  }

  /** Segments of text[border..], when scanning has reached `pos` inside the marker opened by `opener`, if any. */
  function SegmentsFrom(text: string, border: nat, pos: nat, opener: Option<char>): seq<Segment>
    requires border <= pos <= |text|
    decreases |text| - pos
  {
    if pos == |text| then (if border < |text| then [Plain(text[border..])] else [])
    else if opener.None? && Opens(text[pos]) then
      (if border < pos then [Plain(text[border..pos])] else []) + SegmentsFrom(text, pos, pos + 1, Some(text[pos]))
    else if opener.Some? && Closes(opener.value, text[pos]) then
      [Marker(text[border..pos + 1])] + SegmentsFrom(text, pos + 1, pos + 1, None)
    else SegmentsFrom(text, border, pos + 1, opener)
  }

  function Segments(text: string): seq<Segment> { SegmentsFrom(text, 0, 0, None) }

  lemma {:induction false} SegmentsFromLossless(text: string, border: nat, pos: nat, opener: Option<char>)
    requires border <= pos <= |text|
    ensures Join(SegmentsFrom(text, border, pos, opener)) == text[border..]
    ensures NonEmpty(SegmentsFrom(text, border, pos, opener))
    decreases |text| - pos
  {
    hide Join;
    if pos == |text| {
      if border < pos { JoinOne(Plain(text[border..])); } else { JoinNone(); }
    } else if opener.None? && Opens(text[pos]) {
      var rest := SegmentsFrom(text, pos, pos + 1, Some(text[pos]));
      SegmentsFromLossless(text, pos, pos + 1, Some(text[pos]));
      if border < pos {
        PutInFront(Plain(text[border..pos]), rest, text, border, pos);
      } else {
        assert [] + rest == rest;
      }
    } else if opener.Some? && Closes(opener.value, text[pos]) {
      SegmentsFromLossless(text, pos + 1, pos + 1, None);
      PutInFront(Marker(text[border..pos + 1]), SegmentsFrom(text, pos + 1, pos + 1, None), text, border, pos + 1);
    } else {
      SegmentsFromLossless(text, border, pos + 1, opener);
    }
  }

  lemma {:induction false} JoinNone()
    ensures Join([]) == ""
  {
  }

  lemma {:induction false} PutInFront(s: Segment, rest: seq<Segment>, text: string, border: nat, end: nat)
    requires border < end <= |text| && s.value == text[border..end]
    requires Join(rest) == text[end..] && NonEmpty(rest)
    ensures Join([s] + rest) == text[border..] && NonEmpty([s] + rest)
  {
    assert ([s] + rest)[0] == s && ([s] + rest)[1..] == rest;
    assert text[border..end] + text[end..] == text[border..];
  }

  /** Joined again, the segments are the text, and none of them is empty. */
  lemma {:induction false} SegmentationLossless(text: string)
    ensures Join(Segments(text)) == text && NonEmpty(Segments(text))
    ensures Segments(text) == [] <==> text == ""
  {
    SegmentsFromLossless(text, 0, 0, None);
    assert text[0..] == text;
  }

  lemma {:induction false} Shift(a: seq<Segment>, s: Segment, rest: seq<Segment>)
    ensures (a + [s]) + rest == a + ([s] + rest)
    ensures [] + rest == rest
  {
  }

  method Segmentize(text: string) returns (segments: seq<Segment>)
    ensures segments == Segments(text)
  {
    segments := [];
    var inMarker, opener, border, pos := false, ' ', 0, 0;
    Shift([], Plain(""), Segments(text));
    while pos < |text|
      invariant 0 <= border <= pos <= |text|
      invariant segments + SegmentsFrom(text, border, pos, if inMarker then Some(opener) else None) == Segments(text)
    {
      if !inMarker && Opens(text[pos]) {
        ghost var rest := SegmentsFrom(text, pos, pos + 1, Some(text[pos]));
        Shift(segments, Plain(text[border..pos]), rest);
        if border < pos {
          segments := segments + [Plain(text[border..pos])];
        }
        border := pos;
        inMarker := true;
        opener := text[pos];
      } else if inMarker && Closes(opener, text[pos]) {
        ghost var rest := SegmentsFrom(text, pos + 1, pos + 1, None);
        Shift(segments, Marker(text[border..pos + 1]), rest);
        segments := segments + [Marker(text[border..pos + 1])];
        border := pos + 1;
        inMarker := false;
        opener := ' ';
      }
      pos := pos + 1;
    }
    if border < |text| {
      segments := segments + [Plain(text[border..])];
    } else {
      assert segments + [] == segments;
    }
  }

  // ---------- matching from both ends ----------

  /** How far the two ends have been consumed, and whether the last segment of a side is gone too. */
  datatype Ends = Ends(ls: nat, le: nat, rs: nat, re: nat, leftDone: bool, rightDone: bool)

  predicate InBounds(e: Ends, l: seq<Segment>, r: seq<Segment>) {
    e.ls <= e.le < |l| && e.rs <= e.re < |r| && (e.leftDone ==> e.ls == e.le) && (e.rightDone ==> e.rs == e.re)
  }

  /** What has not been matched yet. */
  function Rest(segments: seq<Segment>, from: nat, last: nat, done: bool): seq<Segment>
    requires from <= last < |segments|
  {
    segments[from..if done then last else last + 1]
  }

  /** The left and right texts are prefix + rest + suffix. */
  ghost predicate Accounts(segments: seq<Segment>, prefix: string, suffix: string, from: nat, last: nat, done: bool)
    requires from <= last < |segments|
  {
    Join(segments) == prefix + Join(Rest(segments, from, last, done)) + suffix
  }

  /** The shorter side is matched exactly, half from the front and half from the back. */
  predicate HalfMatched(x: seq<Segment>, y: seq<Segment>) {
    && 0 < |x| < |y| && |x| % 2 == 0
    && var h := |x| / 2;
       x[..h] == y[..h] && x[h..] == y[|y| - h..]
  }

  /** After that, the code matches the shorter side's middle segment a second time. */
  predicate DoubleTaken(x: seq<Segment>, y: seq<Segment>) {
    && HalfMatched(x, y)
    && var h := |x| / 2;
       if |y| == |x| + 1 then x[h] == y[h] && x[h].Marker?
       else x[h] == y[|y| - 1 - h] || x[h] == y[h]
  }

  predicate Misaligned(left: string, right: string, l: seq<Segment>, r: seq<Segment>) {
    || DoubleTaken(r, l)
    || (DoubleTaken(l, r) && (|r| == |l| + 1 || !(left <= right)))
  }

  predicate Reconstructs(s: Split, left: string, right: string) {
    s.prefix + s.left + s.suffix == left && s.prefix + s.right + s.suffix == right
  }

  lemma {:induction false} TakeFront(segments: seq<Segment>, prefix: string, suffix: string, from: nat, last: nat, done: bool)
    requires from < last < |segments| && Accounts(segments, prefix, suffix, from, last, done)
    ensures Accounts(segments, prefix + segments[from].value, suffix, from + 1, last, done)
  {
    var rest := Rest(segments, from, last, done);
    assert rest == [segments[from]] + Rest(segments, from + 1, last, done);
    JoinConcat([segments[from]], Rest(segments, from + 1, last, done));
    JoinOne(segments[from]);
    hide Join;
    var x := Join(Rest(segments, from + 1, last, done));
    assert prefix + (segments[from].value + x) + suffix == (prefix + segments[from].value) + x + suffix;
  }

  lemma {:induction false} TakeBack(segments: seq<Segment>, prefix: string, suffix: string, from: nat, last: nat)
    requires from <= last < |segments| && Accounts(segments, prefix, suffix, from, last, false)
    ensures if from < last then Accounts(segments, prefix, segments[last].value + suffix, from, last - 1, false)
            else Accounts(segments, prefix, segments[last].value + suffix, from, last, true)
  {
    var init := segments[from..last];
    assert Rest(segments, from, last, false) == init + [segments[last]];
    JoinConcat(init, [segments[last]]);
    JoinOne(segments[last]);
    hide Join;
    assert prefix + (Join(init) + segments[last].value) + suffix == prefix + Join(init) + (segments[last].value + suffix);
  }

  /** Taking the single remaining segment into the prefix finishes that side. */
  lemma {:induction false} TakeOnly(segments: seq<Segment>, prefix: string, suffix: string, at: nat)
    requires at < |segments| && Accounts(segments, prefix, suffix, at, at, false)
    ensures Accounts(segments, prefix + segments[at].value, suffix, at, at, true)
    ensures Accounts(segments, prefix, segments[at].value + suffix, at, at, true)
  {
    assert Rest(segments, at, at, false) == [segments[at]] && Rest(segments, at, at, true) == [];
    JoinOne(segments[at]);
    assert prefix + segments[at].value + suffix == (prefix + segments[at].value) + "" + suffix;
    assert prefix + segments[at].value + suffix == prefix + "" + (segments[at].value + suffix);
  }

  // ---------- what the code computes ----------

  /** The ends, and the texts taken into prefix and suffix so far. */
  datatype Taken = Taken(e: Ends, prefix: string, suffix: string)

  function FrontTaken(l: seq<Segment>, r: seq<Segment>, t: Taken): (t': Taken)
    requires InBounds(t.e, l, r) && t.e.ls < t.e.le && t.e.rs < t.e.re
    ensures InBounds(t'.e, l, r)
  {
    if l[t.e.ls] != r[t.e.rs] then t
    else t.(e := t.e.(ls := t.e.ls + 1, rs := t.e.rs + 1), prefix := t.prefix + l[t.e.ls].value)
  }

  function BackTaken(l: seq<Segment>, r: seq<Segment>, t: Taken): (t': Taken)
    requires InBounds(t.e, l, r)
    ensures InBounds(t'.e, l, r)
  {
    if l[t.e.le] != r[t.e.re] then t
    else
      var e := if t.e.ls < t.e.le then t.e.(le := t.e.le - 1) else t.e.(leftDone := true);
      var e' := if t.e.rs < t.e.re then e.(re := e.re - 1) else e.(rightDone := true);
      t.(e := e', suffix := l[t.e.le].value + t.suffix)
  }

  /** Equal segments taken from both ends, in turn, until a side has one segment left or neither end matches. */
  function EndsTaken(l: seq<Segment>, r: seq<Segment>, t: Taken): (t': Taken)
    requires InBounds(t.e, l, r)
    ensures InBounds(t'.e, l, r)
    decreases t.e.le - t.e.ls + t.e.re - t.e.rs
  {
    if t.e.ls == t.e.le || t.e.rs == t.e.re then t
    else
      var turn := BackTaken(l, r, FrontTaken(l, r, t));
      if l[t.e.ls] != r[t.e.rs] && l[t.e.le] != r[t.e.re] then t else EndsTaken(l, r, turn)
  }

  /** A side with one segment left: that segment matched against the other side's last, or else first. */
  function LastTaken(l: seq<Segment>, r: seq<Segment>, t: Taken): (t': Taken)
    requires InBounds(t.e, l, r)
    ensures InBounds(t'.e, l, r)
  {
    var e := t.e;
    if e.ls == e.le && e.rs < e.re then
      if l[e.ls] == r[e.re] then Taken(e.(re := e.re - 1, leftDone := true), t.prefix, r[e.re].value + t.suffix)
      else if l[e.ls] == r[e.rs] then Taken(e.(rs := e.rs + 1, leftDone := true), t.prefix + r[e.rs].value, t.suffix)
      else t
    else if e.rs == e.re && e.ls < e.le then
      if l[e.le] == r[e.rs] then Taken(e.(le := e.le - 1, rightDone := true), t.prefix, l[e.le].value + t.suffix)
      else if l[e.ls] == r[e.rs] then Taken(e.(ls := e.ls + 1, rightDone := true), t.prefix + l[e.ls].value, t.suffix)
      else t
    else if e.ls == e.le && e.rs == e.re && l[e.ls] == r[e.rs] && l[e.ls].Marker? then
      Taken(e.(leftDone := true, rightDone := true), t.prefix + r[e.rs].value, t.suffix)
    else t
  }

  /** How many characters two texts share at the front, and at the back. */
  function SharedPrefix(a: string, b: string): (n: nat)
    ensures n <= |a| && n <= |b|
  {
    if a == "" || b == "" || a[0] != b[0] then 0 else 1 + SharedPrefix(a[1..], b[1..])
  }

  function SharedSuffix(a: string, b: string): (n: nat)
    ensures n <= |a| && n <= |b|
  {
    if a == "" || b == "" || a[|a| - 1] != b[|b| - 1] then 0 else 1 + SharedSuffix(a[..|a| - 1], b[..|b| - 1])
  }

  /** What remains, with the characters its texts share moved into suffix and then prefix. */
  function RestsSplit(prefix: string, suffix: string, restLeft: string, restRight: string, textPrefix: bool, textSuffix: bool): Split {
    var s := if textSuffix then SharedSuffix(restLeft, restRight) else 0;
    var p := if textPrefix then SharedPrefix(restLeft[..|restLeft| - s], restRight[..|restRight| - s]) else 0;
    Split(prefix + restLeft[..p], restLeft[|restLeft| - s..] + suffix, restLeft[p..|restLeft| - s], restRight[p..|restRight| - s])
  }

  /** Equal texts are all prefix, and a left text that is wholly shared and starts the right one is the prefix. */
  function Repaired(split: Split, left: string, right: string): Split {
    if split.left != "" then split
    else if split.right == "" then Split(left, "", "", "")
    else if left <= right then Split(left, "", "", right[|left|..])
    else split
  }

  function DiffSplitOf(left: string, right: string): Split {
    var l, r := Segments(left), Segments(right);
    if l == [] then Split("", "", "", right)
    else if r == [] then Split("", "", left, "")
    else
      var t := LastTaken(l, r, EndsTaken(l, r, Taken(Ends(0, |l| - 1, 0, |r| - 1, false, false), "", "")));
      Repaired(RestsSplit(t.prefix, t.suffix,
                          Join(Rest(l, t.e.ls, t.e.le, t.e.leftDone)), Join(Rest(r, t.e.rs, t.e.re, t.e.rightDone)),
                          r[t.e.rs].Plain? && l[t.e.ls].Plain?, l[t.e.le].Plain? && r[t.e.re].Plain?), left, right)
  }

  // ---------- phase one: the loop ----------

  /** `p` segments are matched at the front and `q` at the back. */
  ghost predicate Matched(l: seq<Segment>, r: seq<Segment>, e: Ends, p: nat, q: nat) {
    && InBounds(e, l, r)
    && e.ls == p && e.rs == p
    && e.le + q == |l| - (if e.leftDone then 0 else 1)
    && e.re + q == |r| - (if e.rightDone then 0 else 1)
    && p <= |l| && p <= |r| && q <= |l| && q <= |r|
    && l[..p] == r[..p]
    && l[|l| - q..] == r[|r| - q..]
  }

  /** After `t` turns an end that fell behind has met a difference, which stays where it is. */
  predicate Stuck(l: seq<Segment>, r: seq<Segment>, e: Ends, p: nat, q: nat, t: nat) {
    && p <= t && q <= t
    && (p < t && p < |l| && p < |r| ==> l[p] != r[p])
    && (q < t && q < |l| && q < |r| ==> l[|l| - 1 - q] != r[|r| - 1 - q])
    && (e.leftDone || e.rightDone ==> p == t && q == t)
  }

  /** A half-matched side is matched on every turn and exhausted after half its length. */
  ghost predicate OnTrack(x: seq<Segment>, y: seq<Segment>, p: nat, q: nat, t: nat, xDone: bool, yDone: bool) {
    HalfMatched(x, y) ==> p == t && q == t && t <= |x| / 2 && (xDone <==> t == |x| / 2) && !yDone
  }

  lemma {:induction false} HalfMatchedAt(x: seq<Segment>, y: seq<Segment>, t: nat)
    requires HalfMatched(x, y) && t < |x| / 2
    ensures x[t] == y[t] && x[|x| - 1 - t] == y[|y| - 1 - t]
    ensures t < |x| - 1 - t && t < |y| - 1 - t
    ensures t + 1 == |x| / 2 <==> t + 1 == |x| - 1 - t
  {
    var h := |x| / 2;
    assert x[..h][t] == y[..h][t];
    assert x[h..][h - 1 - t] == y[|y| - h..][h - 1 - t];
  }

  lemma {:induction false} FlagsTell(l: seq<Segment>, r: seq<Segment>, e: Ends, p: nat, q: nat, t: nat)
    requires Matched(l, r, e, p, q) && Stuck(l, r, e, p, q, t)
    ensures e.leftDone && !e.rightDone ==> HalfMatched(l, r) && e.ls == |l| / 2 && e.re == |r| - 1 - e.ls
    ensures e.rightDone && !e.leftDone ==> HalfMatched(r, l) && e.rs == |r| / 2 && e.le == |l| - 1 - e.rs
    ensures e.leftDone && e.rightDone ==> l == r
  {
    if e.leftDone && e.rightDone {
      assert l == l[..p] + l[p..] && r == r[..p] + r[p..];
    }
  }

  lemma {:induction false} ExtendFront(l: seq<Segment>, r: seq<Segment>, p: nat)
    requires p < |l| && p < |r| && l[..p] == r[..p] && l[p] == r[p]
    ensures l[..p + 1] == r[..p + 1]
  {
    assert l[..p + 1] == l[..p] + [l[p]] && r[..p + 1] == r[..p] + [r[p]];
  }

  lemma {:induction false} ExtendBack(l: seq<Segment>, r: seq<Segment>, q: nat)
    requires q < |l| && q < |r| && l[|l| - q..] == r[|r| - q..] && l[|l| - 1 - q] == r[|r| - 1 - q]
    ensures l[|l| - (q + 1)..] == r[|r| - (q + 1)..]
  {
    assert l[|l| - (q + 1)..] == [l[|l| - 1 - q]] + l[|l| - q..];
    assert r[|r| - (q + 1)..] == [r[|r| - 1 - q]] + r[|r| - q..];
  }

  ghost predicate Accounted(l: seq<Segment>, r: seq<Segment>, e: Ends, prefix: string, suffix: string)
    requires InBounds(e, l, r)
  {
    Accounts(l, prefix, suffix, e.ls, e.le, e.leftDone) && Accounts(r, prefix, suffix, e.rs, e.re, e.rightDone)
  }

  lemma {:induction false} FrontKeeps(l: seq<Segment>, r: seq<Segment>, t: Taken, p: nat, q: nat)
    requires Matched(l, r, t.e, p, q) && Accounted(l, r, t.e, t.prefix, t.suffix) && t.e.ls < t.e.le && t.e.rs < t.e.re
    ensures var t' := FrontTaken(l, r, t);
            Matched(l, r, t'.e, if l[p] == r[p] then p + 1 else p, q) && Accounted(l, r, t'.e, t'.prefix, t'.suffix)
  {
    hide Accounts;
    if l[p] == r[p] {
      TakeFront(l, t.prefix, t.suffix, t.e.ls, t.e.le, t.e.leftDone);
      TakeFront(r, t.prefix, t.suffix, t.e.rs, t.e.re, t.e.rightDone);
      ExtendFront(l, r, p);
    }
  }

  lemma {:induction false} BackKeeps(l: seq<Segment>, r: seq<Segment>, t: Taken, p: nat, q: nat)
    requires Matched(l, r, t.e, p, q) && Accounted(l, r, t.e, t.prefix, t.suffix) && !t.e.leftDone && !t.e.rightDone
    ensures var t', back := BackTaken(l, r, t), l[|l| - 1 - q] == r[|r| - 1 - q];
            && Matched(l, r, t'.e, p, if back then q + 1 else q) && Accounted(l, r, t'.e, t'.prefix, t'.suffix)
            && (t'.e.leftDone <==> back && t.e.ls == t.e.le) && (t'.e.rightDone <==> back && t.e.rs == t.e.re)
  {
    hide Accounts;
    if l[t.e.le] == r[t.e.re] {
      TakeBack(l, t.prefix, t.suffix, t.e.ls, t.e.le);
      TakeBack(r, t.prefix, t.suffix, t.e.rs, t.e.re);
      ExtendBack(l, r, q);
    }
  }

  /** One turn keeps track of where each end stands. */
  lemma {:induction false} TurnTracks(l: seq<Segment>, r: seq<Segment>, e: Ends, p: nat, q: nat, t: nat,
                                      e': Ends, front: bool, back: bool)
    requires Matched(l, r, e, p, q) && Stuck(l, r, e, p, q, t) && e.ls < e.le && e.rs < e.re
    requires OnTrack(l, r, p, q, t, e.leftDone, e.rightDone) && OnTrack(r, l, p, q, t, e.rightDone, e.leftDone)
    requires front <==> l[p] == r[p]
    requires back <==> l[|l| - 1 - q] == r[|r| - 1 - q]
    requires var p' := if front then p + 1 else p;
             (e'.leftDone <==> back && p' == |l| - 1 - q) && (e'.rightDone <==> back && p' == |r| - 1 - q)
    ensures HalfMatched(l, r) || HalfMatched(r, l) ==> front && back
    ensures var p', q' := if front then p + 1 else p, if back then q + 1 else q;
            front || back ==>
              Stuck(l, r, e', p', q', t + 1) &&
              OnTrack(l, r, p', q', t + 1, e'.leftDone, e'.rightDone) && OnTrack(r, l, p', q', t + 1, e'.rightDone, e'.leftDone)
  {
    hide HalfMatched;
    HalfMatchedShape(l, r);
    HalfMatchedShape(r, l);
    if HalfMatched(l, r) { HalfMatchedAt(l, r, t); }
    if HalfMatched(r, l) { HalfMatchedAt(r, l, t); }
  }

  /** What the loop keeps after `n` turns, with `p` segments matched at the front and `q` at the back. */
  ghost predicate Going(l: seq<Segment>, r: seq<Segment>, t: Taken, p: nat, q: nat, n: nat) {
    && Matched(l, r, t.e, p, q) && Stuck(l, r, t.e, p, q, n) && Accounted(l, r, t.e, t.prefix, t.suffix)
    && OnTrack(l, r, p, q, n, t.e.leftDone, t.e.rightDone) && OnTrack(r, l, p, q, n, t.e.rightDone, t.e.leftDone)
  }

  /** What the loop leaves: both texts accounted for, and one side used up alone exactly when it is half-matched. */
  ghost predicate FirstPhase(l: seq<Segment>, r: seq<Segment>, t: Taken) {
    var e := t.e;
    && InBounds(e, l, r) && Accounted(l, r, e, t.prefix, t.suffix)
    && (HalfMatched(l, r) <==> e.leftDone && !e.rightDone)
    && (HalfMatched(r, l) <==> e.rightDone && !e.leftDone)
    && (HalfMatched(l, r) ==> e.ls == e.rs == |l| / 2 && e.re == |r| - 1 - e.ls)
    && (HalfMatched(r, l) ==> e.rs == e.ls == |r| / 2 && e.le == |l| - 1 - e.rs)
    && (e.leftDone && e.rightDone ==> l == r)
  }

  lemma {:induction false} TurnKeeps(l: seq<Segment>, r: seq<Segment>, t: Taken, p: nat, q: nat, n: nat)
    requires Going(l, r, t, p, q, n) && t.e.ls < t.e.le && t.e.rs < t.e.re
    ensures var front, back := l[p] == r[p], l[|l| - 1 - q] == r[|r| - 1 - q];
            && (HalfMatched(l, r) || HalfMatched(r, l) ==> front && back)
            && (front || back ==>
                  Going(l, r, BackTaken(l, r, FrontTaken(l, r, t)), if front then p + 1 else p, if back then q + 1 else q, n + 1))
  {
    hide HalfMatched, Accounted, Stuck, OnTrack, FrontTaken, BackTaken, Matched;
    MatchedBounds(l, r, t.e, p, q);
    FrontKeeps(l, r, t, p, q);
    var front, back := l[p] == r[p], l[|l| - 1 - q] == r[|r| - 1 - q];
    var p' := if front then p + 1 else p;
    var t1 := FrontTaken(l, r, t);
    FrontFlags(l, r, t);
    MatchedBounds(l, r, t1.e, p', q);
    BackKeeps(l, r, t1, p', q);
    var t2 := BackTaken(l, r, t1);
    MatchedBounds(l, r, t2.e, p', if back then q + 1 else q);
    TurnTracks(l, r, t.e, p, q, n, t2.e, front, back);
  }

  lemma {:induction false} FrontFlags(l: seq<Segment>, r: seq<Segment>, t: Taken)
    requires InBounds(t.e, l, r) && t.e.ls < t.e.le && t.e.rs < t.e.re
    ensures !t.e.leftDone && !t.e.rightDone
    ensures var t' := FrontTaken(l, r, t); !t'.e.leftDone && !t'.e.rightDone
  {
  }

  lemma {:induction false} EndsKeep(l: seq<Segment>, r: seq<Segment>, t: Taken, p: nat, q: nat, n: nat)
    requires InBounds(t.e, l, r) && Going(l, r, t, p, q, n)
    ensures FirstPhase(l, r, EndsTaken(l, r, t))
    decreases t.e.le - t.e.ls + t.e.re - t.e.rs
  {
    hide HalfMatched, Accounted, Stuck, OnTrack, FrontTaken, BackTaken, Matched, EndsTaken;
    MatchedBounds(l, r, t.e, p, q);
    EndsStep(l, r, t);
    if t.e.ls < t.e.le && t.e.rs < t.e.re {
      TurnKeeps(l, r, t, p, q, n);
      if l[p] == r[p] || l[|l| - 1 - q] == r[|r| - 1 - q] {
        var t' := BackTaken(l, r, FrontTaken(l, r, t));
        TurnShrinks(l, r, t);
        EndsKeep(l, r, t', if l[p] == r[p] then p + 1 else p, if l[|l| - 1 - q] == r[|r| - 1 - q] then q + 1 else q, n + 1);
      } else {
        FlagsTell(l, r, t.e, p, q, n);
        TrackEnds(l, r, t.e, p, q, n);
      }
    } else {
      FlagsTell(l, r, t.e, p, q, n);
      TrackEnds(l, r, t.e, p, q, n);
    }
  }

  lemma {:induction false} TurnShrinks(l: seq<Segment>, r: seq<Segment>, t: Taken)
    requires InBounds(t.e, l, r) && t.e.ls < t.e.le && t.e.rs < t.e.re
    requires l[t.e.ls] == r[t.e.rs] || l[t.e.le] == r[t.e.re]
    ensures var e := BackTaken(l, r, FrontTaken(l, r, t)).e; e.le - e.ls + e.re - e.rs < t.e.le - t.e.ls + t.e.re - t.e.rs
  {
  }

  lemma {:induction false} FirstPhaseHolds(l: seq<Segment>, r: seq<Segment>)
    requires l != [] && r != []
    ensures FirstPhase(l, r, EndsTaken(l, r, Taken(Ends(0, |l| - 1, 0, |r| - 1, false, false), "", "")))
  {
    StartMatched(l, r);
    hide HalfMatched, Matched, Accounted, Stuck, OnTrack, EndsTaken;
    EndsKeep(l, r, Taken(Ends(0, |l| - 1, 0, |r| - 1, false, false), "", ""), 0, 0, 0);
  }

  method MatchEnds(l: seq<Segment>, r: seq<Segment>) returns (e: Ends, prefix: string, suffix: string)
    requires l != [] && r != []
    ensures Taken(e, prefix, suffix) == EndsTaken(l, r, Taken(Ends(0, |l| - 1, 0, |r| - 1, false, false), "", ""))
  {
    hide EndsTaken;
    prefix, suffix := "", "";
    e := Ends(0, |l| - 1, 0, |r| - 1, false, false);
    ghost var goal := EndsTaken(l, r, Taken(e, prefix, suffix));
    EndsStep(l, r, Taken(e, prefix, suffix));
    while e.ls != e.le && e.rs != e.re
      invariant InBounds(e, l, r)
      invariant EndsTaken(l, r, Taken(e, prefix, suffix)) == goal
      decreases e.le - e.ls + e.re - e.rs
    {
      ghost var before := Taken(e, prefix, suffix);
      EndsStep(l, r, before);
      var advanced := false;
      if l[e.ls] == r[e.rs] {
        prefix := prefix + l[e.ls].value;
        e := e.(ls := e.ls + 1, rs := e.rs + 1);
        advanced := true;
      }
      assert Taken(e, prefix, suffix) == FrontTaken(l, r, before);
      if l[e.le] == r[e.re] {
        suffix := l[e.le].value + suffix;
        if e.ls != e.le {
          e := e.(le := e.le - 1);
        } else {
          e := e.(leftDone := true);
        }
        if e.rs != e.re {
          e := e.(re := e.re - 1);
        } else {
          e := e.(rightDone := true);
        }
        advanced := true;
      }
      assert Taken(e, prefix, suffix) == BackTaken(l, r, FrontTaken(l, r, before));
      if !advanced {
        break;
      }
    }
    EndsStep(l, r, Taken(e, prefix, suffix));
  }

  /** One turn of the loop, or its end. */
  lemma {:induction false} EndsStep(l: seq<Segment>, r: seq<Segment>, t: Taken)
    requires InBounds(t.e, l, r)
    ensures t.e.ls == t.e.le || t.e.rs == t.e.re ==> EndsTaken(l, r, t) == t
    ensures t.e.ls < t.e.le && t.e.rs < t.e.re ==>
              EndsTaken(l, r, t) == if l[t.e.ls] != r[t.e.rs] && l[t.e.le] != r[t.e.re] then t
                                    else EndsTaken(l, r, BackTaken(l, r, FrontTaken(l, r, t)))
  {
  }

  /** When the loop is over, a half-matched side has been exhausted. */
  lemma {:induction false} TrackEnds(l: seq<Segment>, r: seq<Segment>, e: Ends, p: nat, q: nat, t: nat)
    requires Matched(l, r, e, p, q)
    requires OnTrack(l, r, p, q, t, e.leftDone, e.rightDone) && OnTrack(r, l, p, q, t, e.rightDone, e.leftDone)
    requires e.ls == e.le || e.rs == e.re || !(HalfMatched(l, r) || HalfMatched(r, l))
    ensures HalfMatched(l, r) ==> e.leftDone && !e.rightDone
    ensures HalfMatched(r, l) ==> e.rightDone && !e.leftDone
  {
    hide HalfMatched;
    HalfMatchedShape(l, r);
    HalfMatchedShape(r, l);
    if HalfMatched(l, r) && t < |l| / 2 { HalfMatchedAt(l, r, t); }
    if HalfMatched(r, l) && t < |r| / 2 { HalfMatchedAt(r, l, t); }
  }

  lemma {:induction false} StartMatched(l: seq<Segment>, r: seq<Segment>)
    requires l != [] && r != []
    ensures var e := Ends(0, |l| - 1, 0, |r| - 1, false, false);
            && Matched(l, r, e, 0, 0) && Stuck(l, r, e, 0, 0, 0) && Accounted(l, r, e, "", "")
            && OnTrack(l, r, 0, 0, 0, false, false) && OnTrack(r, l, 0, 0, 0, false, false)
  {
    NothingTaken(l);
    NothingTaken(r);
    hide Accounts;
  }

  lemma {:induction false} MatchedBounds(l: seq<Segment>, r: seq<Segment>, e: Ends, p: nat, q: nat)
    requires Matched(l, r, e, p, q)
    ensures InBounds(e, l, r) && e.ls == p && e.rs == p
    ensures e.le + q == |l| - (if e.leftDone then 0 else 1)
    ensures e.re + q == |r| - (if e.rightDone then 0 else 1)
  {
  }

  lemma {:induction false} NothingTaken(segments: seq<Segment>)
    requires segments != []
    ensures Accounts(segments, "", "", 0, |segments| - 1, false)
  {
    assert segments[0..|segments|] == segments;
    assert Join(segments) == "" + Join(segments) + "";
  }

  lemma {:induction false} HalfMatchedShape(x: seq<Segment>, y: seq<Segment>)
    ensures HalfMatched(x, y) ==> 0 < |x| < |y| && |x| % 2 == 0
  {
  }

  // ---------- phase two: a side with one segment left ----------

  /** One side is spent and the other side's texts would have to stretch to fit. */
  ghost predicate Overdrawn(segments: seq<Segment>, prefix: string, suffix: string) {
    |prefix| + |suffix| > |Join(segments)|
  }

  lemma {:induction false} SpentSide(segments: seq<Segment>, prefix: string, suffix: string, at: nat, v: string)
    requires at < |segments| && Accounts(segments, prefix, suffix, at, at, true) && v != ""
    ensures Overdrawn(segments, prefix + v, suffix) && Overdrawn(segments, prefix, v + suffix)
  {
    assert Rest(segments, at, at, true) == [];
  }

  method TakeRemaining(l: seq<Segment>, r: seq<Segment>, e: Ends, prefix: string, suffix: string)
    returns (e': Ends, prefix': string, suffix': string)
    requires InBounds(e, l, r)
    ensures Taken(e', prefix', suffix') == LastTaken(l, r, Taken(e, prefix, suffix))
  {
    e', prefix', suffix' := e, prefix, suffix;
    if e.ls == e.le && e.rs != e.re {
      if l[e.ls] == r[e.re] {
        suffix' := r[e.re].value + suffix;
        e' := e.(re := e.re - 1, leftDone := true);
      } else if l[e.ls] == r[e.rs] {
        prefix' := prefix + r[e.rs].value;
        e' := e.(rs := e.rs + 1, leftDone := true);
      }
    } else if e.rs == e.re && e.ls != e.le {
      if l[e.le] == r[e.rs] {
        suffix' := l[e.le].value + suffix;
        e' := e.(le := e.le - 1, rightDone := true);
      } else if l[e.ls] == r[e.rs] {
        prefix' := prefix + l[e.ls].value;
        e' := e.(ls := e.ls + 1, rightDone := true);
      }
    } else if e.ls == e.le && e.rs == e.re && l[e.ls] == r[e.rs] && l[e.ls].Marker? {
      prefix' := prefix + r[e.rs].value;
      e' := e.(leftDone := true, rightDone := true);
    }
  }

  /** The left side has one segment left, the right side more. */
  lemma {:induction false} LeftLastTaken(l: seq<Segment>, r: seq<Segment>, t: Taken)
    requires InBounds(t.e, l, r) && Accounted(l, r, t.e, t.prefix, t.suffix) && NonEmpty(l) && NonEmpty(r)
    requires t.e.ls == t.e.le && t.e.rs < t.e.re
    ensures var t' := LastTaken(l, r, t);
            && (!t.e.leftDone || t' == t ==> Accounted(l, r, t'.e, t'.prefix, t'.suffix))
            && (t.e.leftDone && t' != t ==>
                  Accounts(r, t'.prefix, t'.suffix, t'.e.rs, t'.e.re, t'.e.rightDone) && Overdrawn(l, t'.prefix, t'.suffix))
  {
    hide Accounts, Overdrawn, NonEmpty;
    var e := t.e;
    SegmentNonEmpty(l, e.ls);
    if e.leftDone {
      SpentSide(l, t.prefix, t.suffix, e.ls, l[e.ls].value);
    } else {
      TakeOnly(l, t.prefix, t.suffix, e.ls);
    }
    if l[e.ls] == r[e.re] {
      TakeBack(r, t.prefix, t.suffix, e.rs, e.re);
    } else if l[e.ls] == r[e.rs] {
      TakeFront(r, t.prefix, t.suffix, e.rs, e.re, e.rightDone);
    }
  }

  lemma {:induction false} RightLastTaken(l: seq<Segment>, r: seq<Segment>, t: Taken)
    requires InBounds(t.e, l, r) && Accounted(l, r, t.e, t.prefix, t.suffix) && NonEmpty(l) && NonEmpty(r)
    requires t.e.rs == t.e.re && t.e.ls < t.e.le
    ensures var t' := LastTaken(l, r, t);
            && (!t.e.rightDone || t' == t ==> Accounted(l, r, t'.e, t'.prefix, t'.suffix))
            && (t.e.rightDone && t' != t ==>
                  Accounts(l, t'.prefix, t'.suffix, t'.e.ls, t'.e.le, t'.e.leftDone) && Overdrawn(r, t'.prefix, t'.suffix))
  {
    hide Accounts, Overdrawn, NonEmpty;
    var e := t.e;
    SegmentNonEmpty(r, e.rs);
    if e.rightDone {
      SpentSide(r, t.prefix, t.suffix, e.rs, r[e.rs].value);
    } else {
      TakeOnly(r, t.prefix, t.suffix, e.rs);
    }
    if l[e.le] == r[e.rs] {
      TakeBack(l, t.prefix, t.suffix, e.ls, e.le);
    } else if l[e.ls] == r[e.rs] {
      TakeFront(l, t.prefix, t.suffix, e.ls, e.le, e.leftDone);
    }
  }

  /** Each side has one segment left. */
  lemma {:induction false} BothLastTaken(l: seq<Segment>, r: seq<Segment>, t: Taken)
    requires InBounds(t.e, l, r) && Accounted(l, r, t.e, t.prefix, t.suffix)
    requires t.e.ls == t.e.le && t.e.rs == t.e.re && !t.e.leftDone && !t.e.rightDone
    ensures var t' := LastTaken(l, r, t); Accounted(l, r, t'.e, t'.prefix, t'.suffix)
  {
    hide Accounts;
    TakeOnly(l, t.prefix, t.suffix, t.e.ls);
    TakeOnly(r, t.prefix, t.suffix, t.e.rs);
  }

  /** What the second phase makes of the first one's outcome. */
  lemma {:induction false} RemainingAccounted(l: seq<Segment>, r: seq<Segment>, t: Taken)
    requires FirstPhase(l, r, t) && NonEmpty(l) && NonEmpty(r)
    ensures var e, t' := t.e, LastTaken(l, r, t);
            && (e.leftDone && e.rightDone ==> t'.e.leftDone && t'.e.rightDone)
            && (!(e.leftDone && e.rightDone) && !DoubleTaken(l, r) && !DoubleTaken(r, l) ==>
                  Accounted(l, r, t'.e, t'.prefix, t'.suffix))
            && (DoubleTaken(l, r) ==> t'.e.leftDone && (t'.e.rightDone <==> |r| == |l| + 1))
            && (DoubleTaken(l, r) && |r| != |l| + 1 ==> Overdrawn(l, t'.prefix, t'.suffix))
            && (DoubleTaken(r, l) ==> t'.e.rightDone && (t'.e.leftDone <==> |l| == |r| + 1))
            && (DoubleTaken(r, l) && |l| != |r| + 1 ==> Overdrawn(r, t'.prefix, t'.suffix))
  {
    hide HalfMatched, Accounted, Overdrawn, NonEmpty;
    var e := t.e;
    HalfMatchedShape(l, r);
    HalfMatchedShape(r, l);
    if e.ls == e.le && e.rs < e.re {
      LeftLastTaken(l, r, t);
    } else if e.rs == e.re && e.ls < e.le {
      RightLastTaken(l, r, t);
    } else if e.ls == e.le && !e.leftDone && !e.rightDone {
      BothLastTaken(l, r, t);
    }
  }

  lemma {:induction false} SegmentNonEmpty(segments: seq<Segment>, i: nat)
    requires NonEmpty(segments) && i < |segments|
    ensures segments[i].value != ""
  {
  }

  // ---------- phase three: characters ----------

  method CommonPrefixLen(a: string, b: string) returns (n: nat)
    ensures n == SharedPrefix(a, b)
  {
    n := 0;
    while n < |a| && n < |b| && a[n] == b[n]
      invariant n <= |a| && n <= |b|
      invariant SharedPrefix(a, b) == n + SharedPrefix(a[n..], b[n..])
    {
      assert a[n..][1..] == a[n + 1..] && b[n..][1..] == b[n + 1..];
      n := n + 1;
    }
  }

  method CommonSuffixLen(a: string, b: string) returns (n: nat)
    ensures n == SharedSuffix(a, b)
  {
    n := 0;
    assert a[..|a|] == a && b[..|b|] == b;
    while n < |a| && n < |b| && a[|a| - 1 - n] == b[|b| - 1 - n]
      invariant n <= |a| && n <= |b|
      invariant SharedSuffix(a, b) == n + SharedSuffix(a[..|a| - n], b[..|b| - n])
    {
      DropLast(a, n);
      DropLast(b, n);
      n := n + 1;
    }
  }

  lemma {:induction false} DropLast(a: string, n: nat)
    requires n < |a|
    ensures a[..|a| - n][..|a| - n - 1] == a[..|a| - (n + 1)]
  {
  }

  lemma {:induction false} SharedPrefixLongest(a: string, b: string)
    ensures var n := SharedPrefix(a, b); a[..n] == b[..n] && (n < |a| && n < |b| ==> a[n] != b[n])
  {
    if a != "" && b != "" && a[0] == b[0] {
      SharedPrefixLongest(a[1..], b[1..]);
      var n := SharedPrefix(a[1..], b[1..]);
      assert a[..n + 1] == [a[0]] + a[1..][..n] && b[..n + 1] == [b[0]] + b[1..][..n];
    }
  }

  lemma {:induction false} TailSnoc(a: string, k: nat)
    requires k < |a|
    ensures a[k..] == a[..|a| - 1][k..] + [a[|a| - 1]]
  {
  }

  lemma {:induction false} SharedSuffixStep(a: string, b: string)
    ensures SharedSuffix(a, b) ==
            if a != "" && b != "" && a[|a| - 1] == b[|b| - 1] then 1 + SharedSuffix(a[..|a| - 1], b[..|b| - 1]) else 0
  {
  }

  lemma {:induction false} SharedSuffixLongest(a: string, b: string)
    ensures var n := SharedSuffix(a, b);
            a[|a| - n..] == b[|b| - n..] && (n < |a| && n < |b| ==> a[|a| - 1 - n] != b[|b| - 1 - n])
  {
    hide SharedSuffix;
    SharedSuffixStep(a, b);
    if a != "" && b != "" && a[|a| - 1] == b[|b| - 1] {
      SharedSuffixLongest(a[..|a| - 1], b[..|b| - 1]);
      var n := SharedSuffix(a[..|a| - 1], b[..|b| - 1]);
      TailSnoc(a, |a| - n - 1);
      TailSnoc(b, |b| - n - 1);
    } else {
      assert a[|a|..] == b[|b|..];
    }
  }

  /** Moving shared characters of what remains into prefix and suffix. */
  lemma {:induction false} Regroup(prefix: string, suffix: string, rest: string, p: nat, s: nat)
    requires p + s <= |rest|
    ensures (prefix + rest[..p]) + rest[p..|rest| - s] + (rest[|rest| - s..] + suffix) == prefix + rest + suffix
  {
    assert rest == rest[..p] + rest[p..|rest| - s] + rest[|rest| - s..];
  }

  lemma {:induction false} NothingShared(prefix: string, suffix: string, restLeft: string, restRight: string,
                                         textPrefix: bool, textSuffix: bool)
    requires restLeft == "" || restRight == ""
    ensures RestsSplit(prefix, suffix, restLeft, restRight, textPrefix, textSuffix) == Split(prefix, suffix, restLeft, restRight)
  {
    hide SharedPrefix, SharedSuffix;
    assert restLeft[..|restLeft| - 0] == restLeft && restRight[..|restRight| - 0] == restRight;
    assert prefix + restLeft[..0] == prefix && restLeft[|restLeft|..] + suffix == suffix;
  }

  lemma {:induction false} RestsAccounted(prefix: string, suffix: string, restLeft: string, restRight: string,
                                          textPrefix: bool, textSuffix: bool)
    ensures var split := RestsSplit(prefix, suffix, restLeft, restRight, textPrefix, textSuffix);
            && split.prefix + split.left + split.suffix == prefix + restLeft + suffix
            && split.prefix + split.right + split.suffix == prefix + restRight + suffix
  {
    hide SharedPrefix, SharedSuffix;
    var s := if textSuffix then SharedSuffix(restLeft, restRight) else 0;
    var p := if textPrefix then SharedPrefix(restLeft[..|restLeft| - s], restRight[..|restRight| - s]) else 0;
    SharedSuffixLongest(restLeft, restRight);
    SharedPrefixLongest(restLeft[..|restLeft| - s], restRight[..|restRight| - s]);
    assert restLeft[..|restLeft| - s][..p] == restLeft[..p] && restRight[..|restRight| - s][..p] == restRight[..p];
    Regroup(prefix, suffix, restLeft, p, s);
    Regroup(prefix, suffix, restRight, p, s);
  }

  method SplitRests(prefix: string, suffix: string, restLeft: string, restRight: string, textPrefix: bool, textSuffix: bool)
    returns (split: Split)
    ensures split == RestsSplit(prefix, suffix, restLeft, restRight, textPrefix, textSuffix)
  {
    var s := 0;
    if textSuffix {
      s := CommonSuffixLen(restLeft, restRight);
    }
    var p := 0;
    if textPrefix {
      p := CommonPrefixLen(restLeft[..|restLeft| - s], restRight[..|restRight| - s]);
    }
    split := Split(prefix + restLeft[..p], restLeft[|restLeft| - s..] + suffix,
                   restLeft[p..|restLeft| - s], restRight[p..|restRight| - s]);
  }

  /** The two repairs at the end: nothing differs, or the left text is a prefix of the right one. */
  method Repair(split: Split, left: string, right: string) returns (r: Split)
    ensures r == Repaired(split, left, right)
  {
    r := split;
    if r.left == "" && r.right == "" {
      r := r.(prefix := left, suffix := "");
    }
    if r.left == "" && r.right != "" && |left| <= |right| && right[..|left|] == left {
      r := r.(prefix := left, suffix := "", right := right[|left|..]);
    }
  }

  // ---------- the whole ----------

  lemma {:induction false} TooLong(prefix: string, middle: string, suffix: string, segments: seq<Segment>)
    requires Overdrawn(segments, prefix, suffix)
    ensures prefix + middle + suffix != Join(segments)
  {
  }

  lemma {:induction false} RestNonEmpty(segments: seq<Segment>, from: nat, last: nat)
    requires from <= last < |segments| && NonEmpty(segments)
    ensures Join(Rest(segments, from, last, false)) != ""
  {
    assert Rest(segments, from, last, false)[0] == segments[from];
  }

  lemma {:induction false} JoinHalves(s: seq<Segment>, h: nat)
    requires h <= |s|
    ensures Join(s) == Join(s[..h]) + Join(s[h..])
  {
    hide Join;
    assert s == s[..h] + s[h..];
    JoinConcat(s[..h], s[h..]);
  }

  lemma {:induction false} MoreSegments(x: seq<Segment>, y: seq<Segment>)
    requires HalfMatched(x, y) && |y| == |x| + 1 && NonEmpty(y)
    ensures Join(x) != Join(y)
  {
    hide Join;
    var h := |x| / 2;
    assert |y| - h == h + 1 && y[h].value != "";
    JoinHalves(x, h);
    JoinHalves(y, h);
    JoinHalves(y[h..], 1);
    assert y[h..][..1] == [y[h]] && y[h..][1..] == y[h + 1..];
    JoinOne(y[h]);
    assert |Join(y)| == |Join(x)| + |y[h].value|;
  }

  lemma {:induction false} WholeSplits(l: seq<Segment>, r: seq<Segment>, e: Ends, prefix: string, suffix: string, s: Split)
    requires InBounds(e, l, r) && Accounted(l, r, e, prefix, suffix)
    requires s.prefix + s.left + s.suffix == prefix + Join(Rest(l, e.ls, e.le, e.leftDone)) + suffix
    requires s.prefix + s.right + s.suffix == prefix + Join(Rest(r, e.rs, e.re, e.rightDone)) + suffix
    ensures Reconstructs(s, Join(l), Join(r))
  {
  }

  method CalculateDiffSplit(left: string, right: string) returns (result: Split)
    ensures result == DiffSplitOf(left, right)
    ensures Reconstructs(result, left, right) <==> !Misaligned(left, right, Segments(left), Segments(right))
  {
    SplitReconstructs(left, right);
    hide Join, Segments, EndsTaken, LastTaken, RestsSplit, Repaired, Misaligned, Reconstructs, Rest;
    var l := Segmentize(left);
    var r := Segmentize(right);
    if l == [] {
      return Split("", "", "", right);
    }
    if r == [] {
      return Split("", "", left, "");
    }
    var e, prefix, suffix := MatchEnds(l, r);
    e, prefix, suffix := TakeRemaining(l, r, e, prefix, suffix);
    var textSuffix := l[e.le].Plain? && r[e.re].Plain?;
    var textPrefix := r[e.rs].Plain? && l[e.ls].Plain?;
    var restLeft, restRight := Join(Rest(l, e.ls, e.le, e.leftDone)), Join(Rest(r, e.rs, e.re, e.rightDone));
    var split := SplitRests(prefix, suffix, restLeft, restRight, textPrefix, textSuffix);
    result := Repair(split, left, right);
  }

  /**
   * The four parts put both texts together again, except in one family of inputs:
   * one text's segments are the other's first and last halves, and the code then
   * matches the middle one a second time.
   */
  lemma {:induction false} SplitReconstructs(left: string, right: string)
    ensures Reconstructs(DiffSplitOf(left, right), left, right) <==> !Misaligned(left, right, Segments(left), Segments(right))
  {
    SegmentationLossless(left);
    SegmentationLossless(right);
    hide Segments, EndsTaken, LastTaken, RestsSplit, Repaired, Misaligned, Reconstructs, Rest, Join, NonEmpty, FirstPhase;
    var l, r := Segments(left), Segments(right);
    OneEmpty(left, right, l, r);
    if l != [] && r != [] {
      FirstPhaseHolds(l, r);
      Judged(left, right, l, r, EndsTaken(l, r, Taken(Ends(0, |l| - 1, 0, |r| - 1, false, false), "", "")));
    }
  }

  lemma {:induction false} OneEmpty(left: string, right: string, l: seq<Segment>, r: seq<Segment>)
    ensures l == [] || r == [] ==> !Misaligned(left, right, l, r)
    ensures left == "" ==> Reconstructs(Split("", "", "", right), left, right)
    ensures right == "" ==> Reconstructs(Split("", "", left, ""), left, right)
  {
    DoubleTakenShape(l, r);
    DoubleTakenShape(r, l);
    hide DoubleTaken, HalfMatched;
    assert "" + left + "" == left && "" + right + "" == right;
  }

  /** The parts that come of a first phase's outcome, and whether they make up the texts. */
  lemma {:induction false} Judged(left: string, right: string, l: seq<Segment>, r: seq<Segment>, t0: Taken)
    requires Join(l) == left && Join(r) == right && NonEmpty(l) && NonEmpty(r) && FirstPhase(l, r, t0)
    ensures var t := LastTaken(l, r, t0);
            var split := RestsSplit(t.prefix, t.suffix,
                                    Join(Rest(l, t.e.ls, t.e.le, t.e.leftDone)), Join(Rest(r, t.e.rs, t.e.re, t.e.rightDone)),
                                    r[t.e.rs].Plain? && l[t.e.ls].Plain?, l[t.e.le].Plain? && r[t.e.re].Plain?);
            Reconstructs(Repaired(split, left, right), left, right) <==> !Misaligned(left, right, l, r)
  {
    hide HalfMatched, DoubleTaken, Accounted, Join, NonEmpty, LastTaken, RestsSplit, Repaired, Overdrawn, Misaligned, Rest;
    RemainingAccounted(l, r, t0);
    var t := LastTaken(l, r, t0);
    var textPrefix, textSuffix := r[t.e.rs].Plain? && l[t.e.ls].Plain?, l[t.e.le].Plain? && r[t.e.re].Plain?;
    var restLeft, restRight := Join(Rest(l, t.e.ls, t.e.le, t.e.leftDone)), Join(Rest(r, t.e.rs, t.e.re, t.e.rightDone));
    var split := RestsSplit(t.prefix, t.suffix, restLeft, restRight, textPrefix, textSuffix);
    RestsAccounted(t.prefix, t.suffix, restLeft, restRight, textPrefix, textSuffix);
    if restLeft == "" || restRight == "" {
      NothingShared(t.prefix, t.suffix, restLeft, restRight, textPrefix, textSuffix);
    }
    var result := Repaired(split, left, right);
    RepairKeeps(split, left, right);
    Verdict(left, right, l, r, t0.e, t.e, t.prefix, t.suffix, split, result);
  }

  lemma {:induction false} RepairKeeps(split: Split, left: string, right: string)
    ensures Reconstructs(split, left, right) ==> Reconstructs(Repaired(split, left, right), left, right)
  {
    assert left + "" + "" == left;
    assert left <= right ==> left + right[|left|..] + "" == right;
  }

  // ---------- what the parts are ----------

  lemma {:induction false} MiddleEnds(text: string, p: nat, n: nat)
    requires p + n < |text|
    ensures var m := text[p..|text| - n]; m[0] == text[p] == text[..|text| - n][p] && m[|m| - 1] == text[|text| - 1 - n]
  {
  }

  /** Where text meets text, what is left differs from its first character and from its last. */
  lemma {:induction false} RestsDiffer(prefix: string, suffix: string, restLeft: string, restRight: string,
                                       textPrefix: bool, textSuffix: bool)
    ensures var s := RestsSplit(prefix, suffix, restLeft, restRight, textPrefix, textSuffix);
            s.left != "" && s.right != "" ==>
              && (textPrefix ==> s.left[0] != s.right[0])
              && (textSuffix ==> s.left[|s.left| - 1] != s.right[|s.right| - 1])
  {
    hide SharedPrefix, SharedSuffix;
    var n := if textSuffix then SharedSuffix(restLeft, restRight) else 0;
    var a, b := restLeft[..|restLeft| - n], restRight[..|restRight| - n];
    var p := if textPrefix then SharedPrefix(a, b) else 0;
    SharedSuffixLongest(restLeft, restRight);
    SharedPrefixLongest(a, b);
    if p < |a| && p < |b| {
      MiddleEnds(restLeft, p, n);
      MiddleEnds(restRight, p, n);
    }
  }

  /** A text has no difference from itself. */
  lemma {:induction false} EqualTexts(text: string)
    ensures DiffSplitOf(text, text) == Split(text, "", "", "")
  {
    SegmentationLossless(text);
    hide EndsTaken, Segments, LastTaken, RestsSplit, Repaired, Join;
    var l := Segments(text);
    if l != [] {
      var start := Taken(Ends(0, |l| - 1, 0, |l| - 1, false, false), "", "");
      SameEnds(l, start);
      AllShared(l, EndsTaken(l, l, start), text);
    }
  }

  lemma {:induction false} AllShared(l: seq<Segment>, t: Taken, text: string)
    requires InBounds(t.e, l, l) && t.e.ls == t.e.rs == t.e.le == t.e.re && t.e.leftDone == t.e.rightDone
    ensures var t' := LastTaken(l, l, t);
            var rest, restRight := Join(Rest(l, t'.e.ls, t'.e.le, t'.e.leftDone)), Join(Rest(l, t'.e.rs, t'.e.re, t'.e.rightDone));
            && rest == restRight
            && Repaired(RestsSplit(t'.prefix, t'.suffix, rest, restRight, l[t'.e.rs].Plain? && l[t'.e.ls].Plain?,
                                   l[t'.e.le].Plain? && l[t'.e.re].Plain?), text, text) == Split(text, "", "", "")
  {
    var t' := LastTaken(l, l, t);
    hide Join;
    if t'.e.leftDone {
      JoinNone();
    } else {
      SharedAll(Join(Rest(l, t'.e.ls, t'.e.le, t'.e.leftDone)));
    }
  }

  lemma {:induction false} SameEnds(l: seq<Segment>, t: Taken)
    requires InBounds(t.e, l, l) && t.e.ls == t.e.rs && t.e.le == t.e.re && t.e.leftDone == t.e.rightDone
    ensures var e := EndsTaken(l, l, t).e; e.ls == e.rs == e.le == e.re && e.leftDone == e.rightDone
    decreases t.e.le - t.e.ls
  {
    if t.e.ls < t.e.le { SameEnds(l, BackTaken(l, l, FrontTaken(l, l, t))); }
  }

  lemma {:induction false} SharedAll(a: string)
    ensures SharedSuffix(a, a) == |a|
  {
    if a != "" { SharedAll(a[..|a| - 1]); }
  }

  lemma {:induction false} DoubleTakenShape(x: seq<Segment>, y: seq<Segment>)
    ensures DoubleTaken(x, y) ==> HalfMatched(x, y) && 0 < |x| < |y|
  {
  }

  lemma {:induction false} SpentRest(segments: seq<Segment>, at: nat)
    requires at < |segments|
    ensures Join(Rest(segments, at, at, true)) == ""
  {
  }

  /** Which outcome each way through the phases leads to. */
  lemma {:induction false} Verdict(left: string, right: string, l: seq<Segment>, r: seq<Segment>, e0: Ends, e: Ends,
                                   prefix: string, suffix: string, split: Split, result: Split)
    requires Join(l) == left && Join(r) == right && NonEmpty(l) && NonEmpty(r)
    requires InBounds(e0, l, r) && InBounds(e, l, r)
    requires HalfMatched(l, r) <==> e0.leftDone && !e0.rightDone
    requires HalfMatched(r, l) <==> e0.rightDone && !e0.leftDone
    requires e0.leftDone && e0.rightDone ==> l == r && e.leftDone && e.rightDone
    requires !(e0.leftDone && e0.rightDone) && !DoubleTaken(l, r) && !DoubleTaken(r, l) ==> Accounted(l, r, e, prefix, suffix)
    requires DoubleTaken(l, r) ==> e.leftDone && (e.rightDone <==> |r| == |l| + 1)
    requires DoubleTaken(l, r) && |r| != |l| + 1 ==> Overdrawn(l, prefix, suffix)
    requires DoubleTaken(r, l) ==> e.rightDone && (e.leftDone <==> |l| == |r| + 1)
    requires DoubleTaken(r, l) && |l| != |r| + 1 ==> Overdrawn(r, prefix, suffix)
    requires var restLeft, restRight := Join(Rest(l, e.ls, e.le, e.leftDone)), Join(Rest(r, e.rs, e.re, e.rightDone));
             && split.prefix + split.left + split.suffix == prefix + restLeft + suffix
             && split.prefix + split.right + split.suffix == prefix + restRight + suffix
             && (restLeft == "" || restRight == "" ==> split == Split(prefix, suffix, restLeft, restRight))
    requires Reconstructs(split, left, right) ==> Reconstructs(result, left, right)
    requires result == Repaired(split, left, right)
    ensures Reconstructs(result, left, right) <==> !Misaligned(left, right, l, r)
  {
    hide HalfMatched, DoubleTaken, Accounted, NonEmpty, Overdrawn, Join, Rest;
    DoubleTakenShape(l, r);
    DoubleTakenShape(r, l);
    assert left + "" + "" == left;
    if e.leftDone { SpentRest(l, e.ls); } else { RestNonEmpty(l, e.ls, e.le); }
    if e.rightDone { SpentRest(r, e.rs); } else { RestNonEmpty(r, e.rs, e.re); }
    if DoubleTaken(l, r) {
      if |r| == |l| + 1 {
        MoreSegments(l, r);
      } else {
        TooLong(prefix, "", suffix, l);
        assert left <= right ==> left + right[|left|..] + "" == right;
      }
    } else if DoubleTaken(r, l) {
      if |l| == |r| + 1 {
        MoreSegments(r, l);
      } else {
        TooLong(prefix, "", suffix, r);
      }
    } else if !(e0.leftDone && e0.rightDone) {
      WholeSplits(l, r, e, prefix, suffix, split);
    }
  }

  lemma {:induction false} SmallSegments()
    ensures Segments("<a><b>") == [Marker("<a>"), Marker("<b>")]
    ensures Segments("<a><b><b>") == [Marker("<a>"), Marker("<b>"), Marker("<b>")]
  {
    hide Segments;
    var two, three := "<a><b>", "<a><b><b>";
    assert two[0..3] == "<a>" && two[3..6] == "<b>";
    assert three[0..3] == "<a>" && three[3..6] == "<b>" && three[6..9] == "<b>";
    CutTags(two, ["<a>", "<b>"]);
    CutTags(three, ["<a>", "<b>", "<b>"]);
  }

  lemma {:induction false} SmallDoubleTaken()
    ensures DoubleTaken([Marker("<a>"), Marker("<b>")], [Marker("<a>"), Marker("<b>"), Marker("<b>")])
  {
    var l, r := [Marker("<a>"), Marker("<b>")], [Marker("<a>"), Marker("<b>"), Marker("<b>")];
    assert l[..1] == r[..1] && l[1..] == r[2..];
  }

  /** The smallest such input: the parts do not make up the texts, a marker is lost. */
  lemma {:induction false} SmallestMisaligned()
    ensures var l, r := [Marker("<a>"), Marker("<b>")], [Marker("<a>"), Marker("<b>"), Marker("<b>")];
            && Segments("<a><b>") == l && Segments("<a><b><b>") == r
            && Misaligned("<a><b>", "<a><b><b>", l, r)
    ensures !Reconstructs(DiffSplitOf("<a><b>", "<a><b><b>"), "<a><b>", "<a><b><b>")
  {
    hide DiffSplitOf, Segments, DoubleTaken, Reconstructs;
    SmallSegments();
    SmallDoubleTaken();
    SplitReconstructs("<a><b>", "<a><b><b>");
  }

  /** Tags of three characters written one after another are cut into just those tags. */
  lemma {:induction false} CutTagsFrom(text: string, tags: seq<string>, at: nat)
    requires at <= |tags| && |text| == 3 * |tags|
    requires forall k :: 0 <= k < |tags| ==> text[3 * k..3 * k + 3] == tags[k] && |tags[k]| == 3
                                             && tags[k][0] == '<' && tags[k][1] != '>' && tags[k][2] == '>'
    ensures SegmentsFrom(text, 3 * at, 3 * at, None) == seq(|tags| - at, k requires 0 <= k < |tags| - at => Marker(tags[at + k]))
    decreases |tags| - at
  {
    if at < |tags| {
      var tag := text[3 * at..3 * at + 3];
      assert tag == tags[at] && tag[0] == text[3 * at] && tag[1] == text[3 * at + 1] && tag[2] == text[3 * at + 2];
      CutMarker(text, 3 * at);
      CutTagsFrom(text, tags, at + 1);
    }
  }

  lemma {:induction false} CutTags(text: string, tags: seq<string>)
    requires |text| == 3 * |tags|
    requires forall k :: 0 <= k < |tags| ==> text[3 * k..3 * k + 3] == tags[k] && |tags[k]| == 3
                                             && tags[k][0] == '<' && tags[k][1] != '>' && tags[k][2] == '>'
    ensures Segments(text) == seq(|tags|, k requires 0 <= k < |tags| => Marker(tags[k]))
  {
    CutTagsFrom(text, tags, 0);
  }

  lemma {:induction false} CutMarker(text: string, at: nat)
    requires at + 3 <= |text| && text[at] == '<' && text[at + 2] == '>' && text[at + 1] != '>'
    ensures SegmentsFrom(text, at, at, None) == [Marker(text[at..at + 3])] + SegmentsFrom(text, at + 3, at + 3, None)
  {
    assert SegmentsFrom(text, at, at, None) == [] + SegmentsFrom(text, at, at + 1, Some('<'));
    assert SegmentsFrom(text, at, at + 1, Some('<')) == SegmentsFrom(text, at, at + 2, Some('<'));
    assert SegmentsFrom(text, at, at + 2, Some('<')) == [Marker(text[at..at + 3])] + SegmentsFrom(text, at + 3, at + 3, None);
  }

  // ---------- what a segment is ----------

  /** From an opener to the first matching closer. */
  predicate IsMarker(s: string) {
    || (|s| >= 2 && s[0] == '<' && s[|s| - 1] == '>' && '>' !in s[..|s| - 1])
    || (|s| >= 2 && s[0] == '[' && s[|s| - 1] == ']' && ']' !in s[..|s| - 1])
  }

  /** An opener whose closer never follows. */
  predicate IsUnfinished(s: string) {
    s != "" && ((s[0] == '<' && '>' !in s) || (s[0] == '[' && ']' !in s))
  }

  predicate IsText(s: string) { s != "" && '<' !in s && '[' !in s }

  /** Markers, texts that do not adjoin each other, and at the end perhaps an unfinished marker. */
  predicate WellCut(segments: seq<Segment>) {
    segments == [] ||
    (match segments[0]
     case Marker(value) => IsMarker(value) && WellCut(segments[1..])
     case Plain(value) =>
       (IsText(value) && WellCut(segments[1..]) && !StartsWithText(segments[1..])) || (IsUnfinished(value) && |segments| == 1))
  }

  predicate StartsWithText(segments: seq<Segment>) { segments != [] && segments[0].Plain? && IsText(segments[0].value) }

  /** Inside a marker, the cut so far is an opener without its closer; outside, text without an opener. */
  predicate Pending(text: string, border: nat, pos: nat, opener: Option<char>)
    requires border <= pos <= |text|
  {
    match opener
    case None => '<' !in text[border..pos] && '[' !in text[border..pos]
    case Some(c) =>
      border < pos && text[border] == c && ((c == '<' && '>' !in text[border..pos]) || (c == '[' && ']' !in text[border..pos]))
  }

  lemma {:induction false} PendingMore(text: string, border: nat, pos: nat)
    requires border <= pos < |text|
    ensures text[border..pos + 1] == text[border..pos] + [text[pos]]
    ensures forall c: char :: c in text[border..pos + 1] <==> c in text[border..pos] || c == text[pos]
    ensures text[pos..pos + 1] == [text[pos]]
  {
    assert text[border..pos + 1] == text[border..pos] + [text[pos]];
  }

  lemma {:induction false} SegmentsFromWellCut(text: string, border: nat, pos: nat, opener: Option<char>)
    requires border <= pos <= |text| && Pending(text, border, pos, opener)
    ensures WellCut(SegmentsFrom(text, border, pos, opener))
    ensures opener.Some? ==> !StartsWithText(SegmentsFrom(text, border, pos, opener))
    decreases |text| - pos
  {
    hide SegmentsFrom, WellCut, StartsWithText, Pending;
    if pos == |text| {
      ScanEnd(text, border, opener);
      CutEnd(text, border, opener);
    } else if opener.None? && Opens(text[pos]) {
      PendingOpens(text, pos);
      SegmentsFromWellCut(text, pos, pos + 1, Some(text[pos]));
      var rest := SegmentsFrom(text, pos, pos + 1, Some(text[pos]));
      CutText(text, border, pos, rest);
      ScanOpens(text, border, pos);
    } else if opener.Some? && Closes(opener.value, text[pos]) {
      PendingNone(text, pos + 1);
      SegmentsFromWellCut(text, pos + 1, pos + 1, None);
      CutAtCloser(text, border, pos, opener.value, SegmentsFrom(text, pos + 1, pos + 1, None));
      ScanCloses(text, border, pos, opener.value);
    } else {
      PendingOn(text, border, pos, opener);
      ScanOn(text, border, pos, opener);
      SegmentsFromWellCut(text, border, pos + 1, opener);
    }
  }

  lemma {:induction false} PendingOpens(text: string, pos: nat)
    requires pos < |text| && Opens(text[pos])
    ensures Pending(text, pos, pos + 1, Some(text[pos]))
  {
    assert text[pos..pos + 1] == [text[pos]];
  }

  lemma {:induction false} PendingNone(text: string, pos: nat)
    requires pos <= |text|
    ensures Pending(text, pos, pos, None)
  {
    assert text[pos..pos] == "";
  }

  lemma {:induction false} PendingOn(text: string, border: nat, pos: nat, opener: Option<char>)
    requires border <= pos < |text| && Pending(text, border, pos, opener)
    requires !(opener.None? && Opens(text[pos])) && !(opener.Some? && Closes(opener.value, text[pos]))
    ensures Pending(text, border, pos + 1, opener)
  {
    PendingMore(text, border, pos);
  }

  lemma {:induction false} ScanEnd(text: string, border: nat, opener: Option<char>)
    requires border <= |text|
    ensures SegmentsFrom(text, border, |text|, opener) == if border < |text| then [Plain(text[border..])] else []
  {
  }

  lemma {:induction false} ScanOpens(text: string, border: nat, pos: nat)
    requires border <= pos < |text| && Opens(text[pos])
    ensures SegmentsFrom(text, border, pos, None) ==
            (if border < pos then [Plain(text[border..pos])] else []) + SegmentsFrom(text, pos, pos + 1, Some(text[pos]))
  {
  }

  lemma {:induction false} ScanCloses(text: string, border: nat, pos: nat, opener: char)
    requires border <= pos < |text| && Closes(opener, text[pos])
    ensures SegmentsFrom(text, border, pos, Some(opener)) ==
            [Marker(text[border..pos + 1])] + SegmentsFrom(text, pos + 1, pos + 1, None)
  {
  }

  lemma {:induction false} ScanOn(text: string, border: nat, pos: nat, opener: Option<char>)
    requires border <= pos < |text|
    requires !(opener.None? && Opens(text[pos])) && !(opener.Some? && Closes(opener.value, text[pos]))
    ensures SegmentsFrom(text, border, pos, opener) == SegmentsFrom(text, border, pos + 1, opener)
  {
  }

  lemma {:induction false} OnePlain(v: string)
    ensures WellCut([Plain(v)]) <==> IsText(v) || IsUnfinished(v)
  {
    var cut := [Plain(v)];
    assert cut[0] == Plain(v) && cut[1..] == [];
  }

  lemma {:induction false} CutEnd(text: string, border: nat, opener: Option<char>)
    requires border <= |text| && Pending(text, border, |text|, opener)
    ensures var cut := if border < |text| then [Plain(text[border..])] else [];
            WellCut(cut) && (opener.Some? ==> !StartsWithText(cut))
  {
    assert text[border..|text|] == text[border..];
    if border < |text| {
      var v := text[border..];
      assert v[0] == text[border] && v[0] in v;
      assert opener.Some? ==> IsUnfinished(v) && !IsText(v);
      assert opener.None? ==> IsText(v);
      OnePlain(v);
    }
  }

  lemma {:induction false} CutText(text: string, border: nat, pos: nat, rest: seq<Segment>)
    requires border <= pos < |text| && Pending(text, border, pos, None) && WellCut(rest) && !StartsWithText(rest)
    ensures WellCut((if border < pos then [Plain(text[border..pos])] else []) + rest)
  {
    if border < pos {
      assert ([Plain(text[border..pos])] + rest)[1..] == rest;
    } else {
      assert [] + rest == rest;
    }
  }

  lemma {:induction false} CutAtCloser(text: string, border: nat, pos: nat, opener: char, rest: seq<Segment>)
    requires border <= pos < |text| && Pending(text, border, pos, Some(opener)) && Closes(opener, text[pos]) && WellCut(rest)
    ensures var cut := [Marker(text[border..pos + 1])] + rest; WellCut(cut) && !StartsWithText(cut)
  {
    var v := text[border..pos + 1];
    assert v[..|v| - 1] == text[border..pos] && v[0] == text[border] && v[|v| - 1] == text[pos];
    assert ([Marker(v)] + rest)[1..] == rest;
  }

  /** The segments of any text are well cut. */
  lemma {:induction false} SegmentsWellCut(text: string)
    ensures WellCut(Segments(text)) && Join(Segments(text)) == text
  {
    assert text[0..0] == "";
    SegmentsFromWellCut(text, 0, 0, None);
    SegmentationLossless(text);
  }

  /** A well-cut list starts with an opener unless it starts with text. */
  lemma {:induction false} FirstChar(a: seq<Segment>)
    requires WellCut(a) && a != []
    ensures a[0].value != "" && Join(a) != "" && Join(a)[0] == a[0].value[0] && Join(a) == a[0].value + Join(a[1..])
    ensures StartsWithText(a) <==> !Opens(Join(a)[0])
  {
    if a[0].Plain? && IsText(a[0].value) { assert a[0].value[0] in a[0].value; }
  }

  /** Where the first of some characters stands, or the length where there is none. */
  function FirstOf(s: string, stop: set<char>): (k: nat)
    ensures k <= |s|
  {
    if s == "" || s[0] in stop then 0 else 1 + FirstOf(s[1..], stop)
  }

  lemma {:induction false} FirstOfConcat(v: string, rest: string, stop: set<char>)
    requires forall c: char :: c in v ==> c !in stop
    ensures FirstOf(v + rest, stop) == |v| + FirstOf(rest, stop)
  {
    if v == "" {
      assert v + rest == rest;
    } else {
      assert (v + rest)[1..] == v[1..] + rest && v[0] in v;
      forall c: char | c in v[1..] ensures c !in stop { assert c in v; }
      FirstOfConcat(v[1..], rest, stop);
    }
  }

  /** The first segment, told from the text alone. */
  function FirstSegment(s: string): Segment
    requires s != ""
  {
    if Opens(s[0]) then
      var k := FirstOf(s, {if s[0] == '<' then '>' else ']'});
      if k < |s| then Marker(s[..k + 1]) else Plain(s)
    else Plain(s[..FirstOf(s, {'<', '['})])
  }

  lemma {:induction false} SamePrefix(v: string, x: string)
    ensures (v + x)[..|v|] == v && (v + x)[|v|..] == x
  {
  }

  lemma {:induction false} FirstMarker(v: string, x: string)
    requires IsMarker(v)
    ensures FirstSegment(v + x) == Marker(v)
  {
    var k, stop := |v| - 1, {if v[0] == '<' then '>' else ']'};
    SamePrefix(v, x);
    FirstOfConcat(v[..k], v[k..] + x, stop);
    assert v + x == v[..k] + (v[k..] + x) && (v[k..] + x)[0] == v[k];
  }

  lemma {:induction false} FirstText(v: string, x: string)
    requires IsText(v) && (x != "" ==> Opens(x[0]))
    ensures FirstSegment(v + x) == Plain(v)
  {
    assert v[0] in v;
    SamePrefix(v, x);
    FirstOfConcat(v, x, {'<', '['});
  }

  lemma {:induction false} FirstUnfinished(v: string)
    requires IsUnfinished(v)
    ensures FirstSegment(v) == Plain(v)
  {
    assert v + "" == v;
    FirstOfConcat(v, "", {if v[0] == '<' then '>' else ']'});
  }

  lemma {:induction false} FirstIs(a: seq<Segment>)
    requires WellCut(a) && a != []
    ensures Join(a) != "" && a[0] == FirstSegment(Join(a))
  {
    FirstChar(a);
    var v, x := a[0].value, Join(a[1..]);
    hide Join, FirstSegment, IsMarker, IsText, IsUnfinished;
    if a[0].Marker? {
      FirstMarker(v, x);
    } else if |a| == 1 && IsUnfinished(v) {
      NothingJoined(a[1..]);
      assert v + "" == v;
      FirstUnfinished(v);
    } else {
      if a[1..] != [] { FirstChar(a[1..]); } else { NothingJoined(a[1..]); }
      FirstText(v, x);
    }
  }

  lemma {:induction false} NothingJoined(a: seq<Segment>)
    requires a == []
    ensures Join(a) == ""
  {
  }

  /** No other list is well cut: being so and joining to the text determines the segments. */
  lemma {:induction false} CutUnique(a: seq<Segment>, b: seq<Segment>)
    requires WellCut(a) && WellCut(b) && Join(a) == Join(b)
    ensures a == b
  {
    if a != [] { FirstIs(a); FirstChar(a); TailWellCut(a); }
    if b != [] { FirstIs(b); FirstChar(b); TailWellCut(b); }
    if a != [] && b != [] {
      hide WellCut, FirstSegment;
      SamePrefix(a[0].value, Join(a[1..]));
      SamePrefix(b[0].value, Join(b[1..]));
      hide Join;
      CutUnique(a[1..], b[1..]);
      assert a == [a[0]] + a[1..] && b == [b[0]] + b[1..];
    }
  }

  lemma {:induction false} TailWellCut(a: seq<Segment>)
    requires WellCut(a) && a != []
    ensures WellCut(a[1..])
  {
  }

  /** So the segments are the one well-cut list of the text. */
  lemma {:induction false} SegmentsUnique(text: string, cut: seq<Segment>)
    ensures cut == Segments(text) <==> WellCut(cut) && Join(cut) == text
  {
    hide WellCut, Join, Segments;
    SegmentsWellCut(text);
    if WellCut(cut) && Join(cut) == text { CutUnique(cut, Segments(text)); }
  }

  // ---------- what is left where text meets text ----------

  /** The two texts without markers: what differs shares neither its last nor its first character. */
  lemma {:induction false} PlainTextsDiffer(left: string, right: string)
    requires IsText(left) && IsText(right) && !(left <= right)
    ensures var s := DiffSplitOf(left, right);
            s.left != "" && s.right != "" ==> s.left[0] != s.right[0] && s.left[|s.left| - 1] != s.right[|s.right| - 1]
  {
    RestsDiffer("", "", left, right, true, true);
    OneTextEach(left, right);
    hide DiffSplitOf, RestsSplit, IsText;
  }

  /** Of two texts without markers only characters are matched. */
  lemma {:induction false} OneTextEach(left: string, right: string)
    requires IsText(left) && IsText(right)
    ensures DiffSplitOf(left, right) == Repaired(RestsSplit("", "", left, right, true, true), left, right)
  {
    OneText(left);
    OneText(right);
    hide Segments, RestsSplit, IsText, Join, Repaired, EndsTaken;
    var l, r := Segments(left), Segments(right);
    EndsStep(l, r, Taken(Ends(0, 0, 0, 0, false, false), "", ""));
    JoinOne(l[0]);
    JoinOne(r[0]);
    assert Rest(l, 0, 0, false) == [l[0]] && Rest(r, 0, 0, false) == [r[0]];
  }

  lemma {:induction false} OneText(text: string)
    requires IsText(text)
    ensures Segments(text) == [Plain(text)]
  {
    assert [Plain(text)][1..] == [];
    JoinOne(Plain(text));
    SegmentsUnique(text, [Plain(text)]);
  }

  // ---------- as much as possible, and no marker cut ----------

  function Start(l: seq<Segment>, r: seq<Segment>): Taken
    requires l != [] && r != []
  {
    Taken(Ends(0, |l| - 1, 0, |r| - 1, false, false), "", "")
  }

  /** Both phases, one after the other. */
  function BothTaken(l: seq<Segment>, r: seq<Segment>): (t: Taken)
    requires l != [] && r != []
    ensures InBounds(t.e, l, r)
  {
    LastTaken(l, r, EndsTaken(l, r, Start(l, r)))
  }

  /** Two segments meet that could be taken: the same ones, unless they are the last of both sides and text. */
  predicate Takeable(l: seq<Segment>, r: seq<Segment>, e: Ends, i: nat, j: nat)
    requires InBounds(e, l, r) && i < |l| && j < |r|
  {
    l[i] == r[j] && !(e.ls == e.le && e.rs == e.re && l[i].Plain?)
  }

  predicate Exhausted(l: seq<Segment>, r: seq<Segment>, e: Ends)
    requires InBounds(e, l, r)
  {
    !e.leftDone && !e.rightDone ==> !Takeable(l, r, e, e.ls, e.rs) && !Takeable(l, r, e, e.le, e.re)
  }

  lemma {:induction false} LoopExhausts(l: seq<Segment>, r: seq<Segment>, t: Taken)
    requires InBounds(t.e, l, r)
    ensures var e := EndsTaken(l, r, t).e;
            e.ls < e.le && e.rs < e.re ==> l[e.ls] != r[e.rs] && l[e.le] != r[e.re]
    decreases t.e.le - t.e.ls + t.e.re - t.e.rs
  {
    EndsStep(l, r, t);
    if t.e.ls < t.e.le && t.e.rs < t.e.re && (l[t.e.ls] == r[t.e.rs] || l[t.e.le] == r[t.e.re]) {
      TurnShrinks(l, r, t);
      LoopExhausts(l, r, BackTaken(l, r, FrontTaken(l, r, t)));
    }
    hide EndsTaken, FrontTaken, BackTaken;
  }

  /** As long as neither side is used up, no equal segments are left at either end. */
  lemma {:induction false} NothingMoreToTake(l: seq<Segment>, r: seq<Segment>)
    requires l != [] && r != []
    ensures Exhausted(l, r, BothTaken(l, r).e)
  {
    LoopExhausts(l, r, Start(l, r));
    hide EndsTaken;
  }

  /** The first segment that is not in the suffix. */
  function BackEnd(last: nat, done: bool): nat { if done then last else last + 1 }

  /** From `t` on, these whole segments of the left side have been taken, and so of the right one. */
  ghost predicate TookSegments(l: seq<Segment>, t: Taken, t': Taken)
    requires t.e.ls <= t.e.le < |l|
  {
    && t.e.ls <= t'.e.ls <= t'.e.le <= t.e.le
    && t'.prefix == t.prefix + Join(l[t.e.ls..t'.e.ls])
    && t'.suffix == Join(l[BackEnd(t'.e.le, t'.e.leftDone)..t.e.le + 1]) + t.suffix
  }

  lemma {:induction false} TookNothing(l: seq<Segment>, t: Taken)
    requires t.e.ls <= t.e.le < |l| && !t.e.leftDone
    ensures TookSegments(l, t, t)
  {
    JoinNone();
    assert l[t.e.ls..t.e.ls] == [] && l[t.e.le + 1..t.e.le + 1] == [];
    assert t.prefix + "" == t.prefix && "" + t.suffix == t.suffix;
  }

  lemma {:induction false} TookMore(l: seq<Segment>, t: Taken, u: Taken, t': Taken)
    requires t.e.ls <= t.e.le < |l| && TookSegments(l, t, u) && !u.e.leftDone && TookSegments(l, u, t')
    ensures TookSegments(l, t, t')
  {
    hide Join;
    JoinParts(l, t.e.ls, u.e.ls, t'.e.ls);
    JoinParts(l, BackEnd(t'.e.le, t'.e.leftDone), u.e.le + 1, t.e.le + 1);
    Rejoin(t.prefix, Join(l[t.e.ls..u.e.ls]), Join(l[u.e.ls..t'.e.ls]));
    Rejoin(Join(l[BackEnd(t'.e.le, t'.e.leftDone)..u.e.le + 1]), Join(l[u.e.le + 1..t.e.le + 1]), t.suffix);
  }

  lemma {:induction false} SegmentsTaken(l: seq<Segment>, r: seq<Segment>, t: Taken)
    requires InBounds(t.e, l, r) && !t.e.leftDone && !t.e.rightDone
    ensures TookSegments(l, t, EndsTaken(l, r, t))
    decreases t.e.le - t.e.ls + t.e.re - t.e.rs
  {
    hide EndsTaken, FrontTaken, BackTaken, TookSegments;
    EndsStep(l, r, t);
    if t.e.ls < t.e.le && t.e.rs < t.e.re && (l[t.e.ls] == r[t.e.rs] || l[t.e.le] == r[t.e.re]) {
      TurnShrinks(l, r, t);
      TurnTexts(l, r, t);
      var turn := BackTaken(l, r, FrontTaken(l, r, t));
      if turn.e.leftDone || turn.e.rightDone {
        EndsStep(l, r, turn);
      } else {
        SegmentsTaken(l, r, turn);
        TookMore(l, t, turn, EndsTaken(l, r, turn));
      }
    } else {
      TookNothing(l, t);
    }
  }

  lemma {:induction false} Rejoin(a: string, b: string, c: string)
    ensures (a + b) + c == a + (b + c)
  {
  }

  lemma {:induction false} JoinParts(l: seq<Segment>, i: nat, j: nat, k: nat)
    requires i <= j <= k <= |l|
    ensures Join(l[i..k]) == Join(l[i..j]) + Join(l[j..k])
  {
    assert l[i..k] == l[i..j] + l[j..k];
    JoinConcat(l[i..j], l[j..k]);
  }

  lemma {:induction false} TurnTexts(l: seq<Segment>, r: seq<Segment>, t: Taken)
    requires InBounds(t.e, l, r) && !t.e.leftDone && !t.e.rightDone && t.e.ls < t.e.le && t.e.rs < t.e.re
    ensures var t' := BackTaken(l, r, FrontTaken(l, r, t));
            TookSegments(l, t, t') && (t'.e.leftDone || t'.e.rightDone ==> t'.e.ls == t'.e.le || t'.e.rs == t'.e.re)
  {
    hide Join;
    JoinNone();
    JoinOne(l[t.e.ls]);
    JoinOne(l[t.e.le]);
    assert l[t.e.ls..t.e.ls] == [] && l[t.e.le + 1..t.e.le + 1] == [];
    assert l[t.e.ls..t.e.ls + 1] == [l[t.e.ls]] && l[t.e.le..t.e.le + 1] == [l[t.e.le]];
    assert t.prefix + "" == t.prefix && "" + t.suffix == t.suffix;
  }

  /** What text meets text adds at the front, and at the back. */
  lemma {:induction false} RestsAdd(prefix: string, suffix: string, restLeft: string, restRight: string, textPrefix: bool, textSuffix: bool)
    ensures var s := RestsSplit(prefix, suffix, restLeft, restRight, textPrefix, textSuffix);
            && prefix <= s.prefix && (textPrefix || s.prefix == prefix)
            && EndsWith(s.suffix, suffix) && (textSuffix || s.suffix == suffix)
  {
    hide SharedPrefix, SharedSuffix;
    var n := if textSuffix then SharedSuffix(restLeft, restRight) else 0;
    assert (restLeft[|restLeft| - n..] + suffix)[n..] == suffix;
    assert prefix + "" == prefix && "" + suffix == suffix;
    assert restLeft[..0] == "" && restLeft[|restLeft| - 0..] == "";
  }

  predicate EndsWith(text: string, end: string) { |end| <= |text| && text[|text| - |end|..] == end }

  lemma {:induction false} OnlyLoop(l: seq<Segment>, r: seq<Segment>, t: Taken)
    requires InBounds(t.e, l, r)
    ensures var t' := LastTaken(l, r, t); !t'.e.leftDone && !t'.e.rightDone ==> t' == t
  {
  }

  /** While neither side is used up, the loop alone has taken. */
  lemma {:induction false} LoopAlone(l: seq<Segment>, r: seq<Segment>)
    requires l != [] && r != [] && !BothTaken(l, r).e.leftDone && !BothTaken(l, r).e.rightDone
    ensures var t := BothTaken(l, r);
            t.prefix == Join(l[..t.e.ls]) && t.suffix == Join(l[t.e.le + 1..])
  {
    hide EndsTaken, Join;
    SegmentsTaken(l, r, Start(l, r));
    OnlyLoop(l, r, EndsTaken(l, r, Start(l, r)));
    hide LastTaken;
    var t := BothTaken(l, r);
    assert l[0..t.e.ls] == l[..t.e.ls] && l[t.e.le + 1..|l|] == l[t.e.le + 1..];
    assert "" + Join(l[..t.e.ls]) == Join(l[..t.e.ls]) && Join(l[t.e.le + 1..]) + "" == Join(l[t.e.le + 1..]);
  }

  lemma {:induction false} NotRepaired(left: string, right: string)
    requires left != "" && right != "" && DiffSplitOf(left, right).left != ""
    ensures Segments(left) != [] && Segments(right) != []
    ensures var l, r := Segments(left), Segments(right);
            var t := BothTaken(l, r);
            DiffSplitOf(left, right) ==
            RestsSplit(t.prefix, t.suffix, Join(Rest(l, t.e.ls, t.e.le, t.e.leftDone)), Join(Rest(r, t.e.rs, t.e.re, t.e.rightDone)),
                       r[t.e.rs].Plain? && l[t.e.ls].Plain?, l[t.e.le].Plain? && r[t.e.re].Plain?)
  {
    SegmentationLossless(left);
    SegmentationLossless(right);
    hide Segments, EndsTaken, LastTaken, RestsSplit, Join, Rest;
  }

  /** The parts when the first phase leaves `e`, with `front` and `back` saying where text meets text. */
  ghost predicate WholeMarkers(s: Split, l: seq<Segment>, e: Ends, front: bool, back: bool)
    requires e.ls <= e.le < |l|
  {
    && Join(l[..e.ls]) <= s.prefix && (front || s.prefix == Join(l[..e.ls]))
    && EndsWith(s.suffix, Join(l[e.le + 1..])) && (back || s.suffix == Join(l[e.le + 1..]))
    && (s.left != "" && s.right != "" ==>
          && (front ==> s.left[0] != s.right[0])
          && (back ==> s.left[|s.left| - 1] != s.right[|s.right| - 1]))
  }

  lemma {:induction false} RestsWhole(l: seq<Segment>, t: Taken, restLeft: string, restRight: string, front: bool, back: bool)
    requires t.e.ls <= t.e.le < |l| && t.prefix == Join(l[..t.e.ls]) && t.suffix == Join(l[t.e.le + 1..])
    ensures WholeMarkers(RestsSplit(t.prefix, t.suffix, restLeft, restRight, front, back), l, t.e, front, back)
  {
    RestsAdd(t.prefix, t.suffix, restLeft, restRight, front, back);
    RestsDiffer(t.prefix, t.suffix, restLeft, restRight, front, back);
    hide Join, RestsSplit, EndsWith;
  }

  /**
   * While both sides have segments left, the prefix is the segments shared at the front
   * and no more than that unless text meets text there, and so is the suffix at the
   * back: no marker is cut. Where text does meet text, what is left differs at once.
   */
  lemma {:induction false} MarkersStayWhole(left: string, right: string)
    requires left != "" && right != "" && DiffSplitOf(left, right).left != ""
    ensures Segments(left) != [] && Segments(right) != []
    ensures var l, r := Segments(left), Segments(right);
            var e := BothTaken(l, r).e;
            !e.leftDone && !e.rightDone ==>
              WholeMarkers(DiffSplitOf(left, right), l, e, r[e.rs].Plain? && l[e.ls].Plain?, l[e.le].Plain? && r[e.re].Plain?)
  {
    hide Segments, RestsSplit, Join, Rest, DiffSplitOf, BothTaken, WholeMarkers;
    NotRepaired(left, right);
    var l, r := Segments(left), Segments(right);
    var t := BothTaken(l, r);
    if !t.e.leftDone && !t.e.rightDone {
      LoopAlone(l, r);
      RestsWhole(l, t, Join(Rest(l, t.e.ls, t.e.le, t.e.leftDone)), Join(Rest(r, t.e.rs, t.e.re, t.e.rightDone)),
                 r[t.e.rs].Plain? && l[t.e.ls].Plain?, l[t.e.le].Plain? && r[t.e.re].Plain?);
    }
  }
}
