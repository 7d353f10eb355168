/** The result-extraction half of detect_objects. After the interpreter's
    forward pass the four output tensors are read (boxes, class ids,
    scores, detection count), and every index below the count whose score
    reaches the threshold becomes one detection, in index order. The
    interpreter itself is not modelled: its four outputs are the input
    here. Boxes and class ids are carried opaquely; scores and the
    threshold are only compared. */
module Detect {
  import opened Wrappers

  /** One result dictionary: 'bounding_box', 'class_id' and 'score'. */
  datatype Detection<B, C> = Detection(boundingBox: B, classId: C, score: real)

  /** The squeezed output tensors 0..3 after invoke(). */
  datatype Outputs<B, C> = Outputs(boxes: seq<B>, classes: seq<C>, scores: seq<real>, count: real)

  datatype Tensor = Boxes | Classes | Scores

  /** The IndexError raised when the loop indexes past the end of a tensor. */
  datatype DetectError = IndexError(tensor: Tensor, index: nat)

  /** Python's int() on a float: truncation toward zero. */
  function Truncate(x: real): (n: int)
    ensures 0.0 <= x ==> 0 <= n && n as real <= x < n as real + 1.0
    ensures x < 0.0 ==> n <= 0 && n as real - 1.0 < x <= n as real
  {
    if x >= 0.0 then x.Floor else -((-x).Floor)
  }

  /** How many times `for i in range(count)` runs: int(count), or none when that is negative. */
  function Iterations<B, C>(o: Outputs<B, C>): (n: nat)
    ensures n == 0 || (n as real <= o.count < n as real + 1.0)
    ensures o.count >= 1.0 ==> n >= 1
  {
    var count := Truncate(o.count);
    if count < 0 then 0 else count
  }

  /** All tensors hold an entry at index i. */
  predicate HasEntry<B, C>(o: Outputs<B, C>, i: nat) {
    i < |o.boxes| && i < |o.classes| && i < |o.scores|
  }

  function DetectionAt<B, C>(o: Outputs<B, C>, i: nat): Detection<B, C>
    requires HasEntry(o, i)
  {
    Detection(o.boxes[i], o.classes[i], o.scores[i])
  }

  /** The loop body at index i: read scores[i]; if it reaches the threshold
      read boxes[i], then classes[i], and append the detection. */
  function Step<B, C>(o: Outputs<B, C>, threshold: real, i: nat, results: seq<Detection<B, C>>)
    : Result<seq<Detection<B, C>>, DetectError>
  {
    if i >= |o.scores| then Err(IndexError(Scores, i))
    else if o.scores[i] >= threshold then
      if i >= |o.boxes| then Err(IndexError(Boxes, i))
      else if i >= |o.classes| then Err(IndexError(Classes, i))
      else Ok(results + [DetectionAt(o, i)])
    else Ok(results)
  }

  /** The outcome of the first n iterations of the loop. */
  function ExtractUpTo<B, C>(o: Outputs<B, C>, threshold: real, n: nat): Result<seq<Detection<B, C>>, DetectError>
  {
    if n == 0 then Ok([])
    else
      match ExtractUpTo(o, threshold, n - 1)
      case Err(e) => Err(e)
      case Ok(results) => Step(o, threshold, n - 1, results)
  }

  /** What detect_objects returns (or raises) for the given outputs. */
  function Extract<B, C>(o: Outputs<B, C>, threshold: real): Result<seq<Detection<B, C>>, DetectError>
  {
    ExtractUpTo(o, threshold, Iterations(o))
  }

  /** The loop never indexes a tensor out of range among its first n iterations. */
  predicate Readable<B, C>(o: Outputs<B, C>, threshold: real, n: nat) {
    && n <= |o.scores|
    && forall i :: 0 <= i < n && o.scores[i] >= threshold ==> i < |o.boxes| && i < |o.classes|
  }

  /** The indices below n whose score reaches the threshold, in increasing order. */
  function Selected(scores: seq<real>, threshold: real, n: nat): (ix: seq<nat>)
    requires n <= |scores|
    ensures forall k :: 0 <= k < |ix| ==> ix[k] < n && scores[ix[k]] >= threshold
    ensures forall k, l :: 0 <= k < l < |ix| ==> ix[k] < ix[l]
    ensures forall i :: 0 <= i < n && scores[i] >= threshold ==> i in ix
    ensures |ix| <= n
  {
    if n == 0 then []
    else
      var prev := Selected(scores, threshold, n - 1);
      if scores[n - 1] >= threshold then prev + [n - 1] else prev
  }

  /** `a` can be obtained from `b` by deleting elements. */
  predicate IsSubsequence<T(==)>(a: seq<T>, b: seq<T>) {
    if a == [] then true
    else if b == [] then false
    else
      || (a[|a| - 1] == b[|b| - 1] && IsSubsequence(a[..|a| - 1], b[..|b| - 1]))
      || IsSubsequence(a, b[..|b| - 1])
  }

  /** detect_objects after invoke(): the filtering loop over range(count). */
  method DetectObjects<B, C>(o: Outputs<B, C>, threshold: real) returns (r: Result<seq<Detection<B, C>>, DetectError>)
    ensures r == Extract(o, threshold)
    ensures r.Ok? ==> |r.value| <= Iterations(o)
    ensures r.Ok? ==> forall k :: 0 <= k < |r.value| ==> r.value[k].score >= threshold
  {
    var count := Truncate(o.count);
    var results := [];
    var i: nat := 0;
    while i < count
      invariant i <= Iterations(o)
      invariant ExtractUpTo(o, threshold, i) == Ok(results)
    {
      if i >= |o.scores| {
        assert ExtractUpTo(o, threshold, i + 1) == Err(IndexError(Scores, i));
        ExtractUpToErrPersists(o, threshold, i + 1, Iterations(o));
        return Err(IndexError(Scores, i));
      }
      if o.scores[i] >= threshold {
        if i >= |o.boxes| {
          assert ExtractUpTo(o, threshold, i + 1) == Err(IndexError(Boxes, i));
          ExtractUpToErrPersists(o, threshold, i + 1, Iterations(o));
          return Err(IndexError(Boxes, i));
        }
        if i >= |o.classes| {
          assert ExtractUpTo(o, threshold, i + 1) == Err(IndexError(Classes, i));
          ExtractUpToErrPersists(o, threshold, i + 1, Iterations(o));
          return Err(IndexError(Classes, i));
        }
        var result := Detection(o.boxes[i], o.classes[i], o.scores[i]);
        results := results + [result];
      }
      i := i + 1;
    }
    r := Ok(results);
    ExtractUpToSelects(o, threshold, Iterations(o));
  }

  /** Once the loop has raised, later iterations do not run. */
  lemma {:induction false} ExtractUpToErrPersists<B, C>(o: Outputs<B, C>, threshold: real, n: nat, m: nat)
    requires n <= m && ExtractUpTo(o, threshold, n).Err?
    ensures ExtractUpTo(o, threshold, m) == ExtractUpTo(o, threshold, n)
    decreases m - n
  {
    if n < m {
      ExtractUpToErrPersists(o, threshold, n, m - 1);
    }
  }

  /** The first n iterations succeed exactly when they index no tensor out of range. */
  lemma {:induction false} ExtractUpToOk<B, C>(o: Outputs<B, C>, threshold: real, n: nat)
    ensures ExtractUpTo(o, threshold, n).Ok? <==> Readable(o, threshold, n)
  {
    if n > 0 {
      ExtractUpToOk(o, threshold, n - 1);
    }
  }

  /** When the loop raises, it does so at the first index it cannot read. */
  lemma {:induction false} ExtractUpToErr<B, C>(o: Outputs<B, C>, threshold: real, n: nat)
    requires ExtractUpTo(o, threshold, n).Err?
    ensures var e := ExtractUpTo(o, threshold, n).error;
      && e.index < n && Readable(o, threshold, e.index)
      && (e.tensor == Scores <==> e.index >= |o.scores|)
      && (e.tensor == Boxes ==> e.index < |o.scores| && o.scores[e.index] >= threshold && e.index >= |o.boxes|)
      && (e.tensor == Classes ==> e.index < |o.scores| && o.scores[e.index] >= threshold
                                  && e.index < |o.boxes| && e.index >= |o.classes|)
  {
    if ExtractUpTo(o, threshold, n - 1).Err? {
      ExtractUpToErr(o, threshold, n - 1);
    } else {
      ExtractUpToOk(o, threshold, n - 1);
    }
  }

  /** A successful run returns exactly the detections at the selected
      indices, in increasing index order. */
  lemma {:induction false} ExtractUpToSelects<B, C>(o: Outputs<B, C>, threshold: real, n: nat)
    requires ExtractUpTo(o, threshold, n).Ok?
    ensures Readable(o, threshold, n)
    ensures var rs := ExtractUpTo(o, threshold, n).value;
      var ix := Selected(o.scores, threshold, n);
      && |rs| == |ix|
      && forall k :: 0 <= k < |rs| ==> HasEntry(o, ix[k]) && rs[k] == DetectionAt(o, ix[k])
  {
    ExtractUpToOk(o, threshold, n);
    if n > 0 {
      ExtractUpToSelects(o, threshold, n - 1);
    }
  }

  /** detect_objects returns exactly the detections at the indices i < count
      whose score reaches the threshold, in index order, and so at most
      count of them, each with a score at or above the threshold. */
  lemma ExtractIsFilter<B, C>(o: Outputs<B, C>, threshold: real)
    requires Extract(o, threshold).Ok?
    ensures var rs := Extract(o, threshold).value;
      var ix := Selected(o.scores, threshold, Iterations(o));
      && |rs| == |ix| <= Iterations(o)
      && (forall k :: 0 <= k < |rs| ==> HasEntry(o, ix[k]) && rs[k] == DetectionAt(o, ix[k]))
      && (forall k :: 0 <= k < |rs| ==> rs[k].score >= threshold)
  {
    ExtractUpToSelects(o, threshold, Iterations(o));
  }

  lemma {:induction false} ExtractUpToMonotone<B, C>(o: Outputs<B, C>, low: real, high: real, n: nat)
    requires low <= high && ExtractUpTo(o, low, n).Ok?
    ensures ExtractUpTo(o, high, n).Ok?
    ensures IsSubsequence(ExtractUpTo(o, high, n).value, ExtractUpTo(o, low, n).value)
  {
    if n > 0 {
      ExtractUpToMonotone(o, low, high, n - 1);
      var a := ExtractUpTo(o, high, n - 1).value;
      var b := ExtractUpTo(o, low, n - 1).value;
      var i := n - 1;
      if o.scores[i] >= high {
        var d := DetectionAt(o, i);
        assert (a + [d])[..|a|] == a && (b + [d])[..|b|] == b;
      } else if o.scores[i] >= low {
        var d := DetectionAt(o, i);
        assert (b + [d])[..|b|] == b;
      }
    }
  }

  /** Raising the threshold keeps a subsequence of the results (and cannot
      introduce an error). */
  lemma ExtractMonotone<B, C>(o: Outputs<B, C>, low: real, high: real)
    requires low <= high && Extract(o, low).Ok?
    ensures Extract(o, high).Ok?
    ensures IsSubsequence(Extract(o, high).value, Extract(o, low).value)
  {
    ExtractUpToMonotone(o, low, high, Iterations(o));
  }

  lemma {:induction false} ExtractUpToPrefix<B, C>(o1: Outputs<B, C>, o2: Outputs<B, C>, threshold: real, n: nat)
    requires n == 0 || HasEntry(o1, n - 1)
    requires n == 0 || HasEntry(o2, n - 1)
    requires o1.boxes[..n] == o2.boxes[..n] && o1.classes[..n] == o2.classes[..n]
    requires o1.scores[..n] == o2.scores[..n]
    ensures ExtractUpTo(o1, threshold, n) == ExtractUpTo(o2, threshold, n)
  {
    if n > 0 {
      var m := n - 1;
      assert o1.boxes[..n][..m] == o1.boxes[..m] && o2.boxes[..n][..m] == o2.boxes[..m];
      assert o1.classes[..n][..m] == o1.classes[..m] && o2.classes[..n][..m] == o2.classes[..m];
      assert o1.scores[..n][..m] == o1.scores[..m] && o2.scores[..n][..m] == o2.scores[..m];
      assert o1.boxes[m] == o1.boxes[..n][m];
      assert o1.classes[m] == o1.classes[..n][m];
      assert o1.scores[m] == o1.scores[..n][m];
      ExtractUpToPrefix(o1, o2, threshold, m);
    }
  }

  /** Entries at index count or beyond are never read: outputs that agree
      on the count and on their first count entries give the same result. */
  lemma ExtractIgnoresTail<B, C>(o1: Outputs<B, C>, o2: Outputs<B, C>, threshold: real)
    requires Iterations(o1) == Iterations(o2)
    requires var n := Iterations(o1);
      && n <= |o1.boxes| && n <= |o1.classes| && n <= |o1.scores|
      && n <= |o2.boxes| && n <= |o2.classes| && n <= |o2.scores|
      && o1.boxes[..n] == o2.boxes[..n] && o1.classes[..n] == o2.classes[..n]
      && o1.scores[..n] == o2.scores[..n]
    ensures Extract(o1, threshold) == Extract(o2, threshold)
  {
    ExtractUpToPrefix(o1, o2, threshold, Iterations(o1));
  }

  /** One detection scored 0.85 against threshold 0.4 is returned as is;
      a count tensor of 1.9 still means one entry. */
  lemma ExampleSingleDetection<B, C>(box: B, classId: C)
    ensures Extract(Outputs([box], [classId], [0.85], 1.9), 0.4) == Ok([Detection(box, classId, 0.85)])
  {
    var o := Outputs([box], [classId], [0.85], 1.9);
    assert Iterations(o) == 1;
    assert ExtractUpTo(o, 0.4, 0) == Ok([]);
    var d := Detection(box, classId, 0.85);
    assert o.scores[0] >= 0.4 && d == DetectionAt(o, 0);
    assert [] + [d] == [d];
  }
}
