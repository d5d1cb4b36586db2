/**
 * The uploaded images and the slideshow over them: the image list, the index
 * of the shown image and the file the frame is generated from, with the
 * upload limit, the previous/next buttons and the names a download saves.
 */
module Slides {
  import opened Wrappers
  import FileNames

  /** An upload of more files than this is rejected. */
  const MaxFiles: nat := 10

  /** An uploaded file; only its name enters the frame rules. */
  datatype SourceFile = SourceFile(name: string)

  /** Why a download cannot name its file. */
  datatype DownloadError = NoCurrentFile

  /** JavaScript's `%`: the remainder of truncating division, with the sign of `a`. */
  function JsRem(a: int, n: int): (r: int)
    requires n > 0
    ensures 0 <= a ==> 0 <= r < n
    ensures a < 0 ==> -n < r <= 0
    ensures (a - r) % n == 0
  {
    if a >= 0 then
      ModUnique(a - a % n, n, a / n, 0);
      a % n
    else
      ModUnique(a + (-a) % n, n, -((-a) / n), 0);
      -((-a) % n)
  }

  /** The index the previous button moves to: `(i - 1 + n) % n`. */
  function PrevIndex(i: int, n: int): (j: int)
    requires n > 0
    ensures 0 <= i ==> 0 <= j < n
  {
    JsRem(i - 1 + n, n)
  }

  /** The index the next button moves to: `(i + 1) % n`. */
  function NextIndex(i: int, n: int): (j: int)
    requires n > 0
    ensures -1 <= i ==> 0 <= j < n
  {
    JsRem(i + 1, n)
  }

  /** From a valid index both buttons give a valid index, wrapping at the ends. */
  lemma StepsStayInRange(i: int, n: int)
    requires 0 <= i < n
    ensures 0 <= PrevIndex(i, n) < n && PrevIndex(i, n) == if i == 0 then n - 1 else i - 1
    ensures 0 <= NextIndex(i, n) < n && NextIndex(i, n) == if i == n - 1 then 0 else i + 1
  {
    if i == 0 {
      ModUnique(n - 1, n, 0, n - 1);
    } else {
      ModUnique(i - 1 + n, n, 1, i - 1);
    }
    if i < n - 1 {
      ModUnique(i + 1, n, 0, i + 1);
    } else {
      ModUnique(n, n, 1, 0);
    }
  }

  /** The remainder is determined by any decomposition `a == n * q + r` with `0 <= r < n`. */
  lemma ModUnique(a: int, n: int, q: int, r: int)
    requires n > 0 && 0 <= r < n && a == n * q + r
    ensures a % n == r
  {
    var q', r' := a / n, a % n;
    assert a == n * q' + r' && 0 <= r' < n;
    var d := q - q';
    assert n * d == r' - r by {
      assert n * q - n * q' == n * d;
    }
    if d >= 1 {
      MulAtLeast(n, d);
    } else if d <= -1 {
      MulAtLeast(n, -d);
    }
  }

  lemma MulAtLeast(n: int, d: int)
    requires n > 0 && d >= 1
    ensures n * d >= n && n * -d == -(n * d)
  {
  }

  /** Previous undoes next, and next undoes previous. */
  lemma PrevNextInverse(i: int, n: int)
    requires 0 <= i < n
    ensures PrevIndex(NextIndex(i, n), n) == i
    ensures NextIndex(PrevIndex(i, n), n) == i
  {
    StepsStayInRange(i, n);
    StepsStayInRange(NextIndex(i, n), n);
    StepsStayInRange(PrevIndex(i, n), n);
  }

  /** The index after pressing next `k` times. */
  function NextTimes(i: int, n: int, k: nat): (j: int)
    requires n > 0
    ensures 0 <= i < n ==> 0 <= j < n
  {
    if k == 0 then i else NextIndex(NextTimes(i, n, k - 1), n)
  }

  /** Pressing next `k` times, at most once per image, advances by `k` with one wrap-around. */
  lemma {:induction false} NextTimesAdvances(i: int, n: int, k: nat)
    requires 0 <= i < n && k <= n
    ensures NextTimes(i, n, k) == if i + k < n then i + k else i + k - n
  {
    if k > 0 {
      NextTimesAdvances(i, n, k - 1);
      StepsStayInRange(NextTimes(i, n, k - 1), n);
    }
  }

  /** Pressing next once per image comes back to the shown image. */
  lemma NextCycleReturns(i: int, n: int)
    requires 0 <= i < n
    ensures NextTimes(i, n, n) == i
  {
    NextTimesAdvances(i, n, n);
  }

  /**
   * The slideshow state. While images are loaded the index points into the
   * list and the current file is the shown image's file.
   */
  class Slideshow {
    var images: seq<SourceFile>
    var currentIndex: int
    var currentFile: Option<SourceFile>

    ghost predicate Valid()
      reads this
    {
      |images| <= MaxFiles && 0 <= currentIndex &&
      (|images| > 0 ==> currentIndex < |images| && currentFile == Some(images[currentIndex]))
    }

    /** The state on start-up: no images; `startFile` is the file of the default image, if loaded. */
    constructor (startFile: Option<SourceFile>)
      ensures Valid()
      ensures images == [] && currentIndex == 0 && currentFile == startFile
    {
      images := [];
      currentIndex := 0;
      currentFile := startFile;
    }

    /**
     * An upload: more than `MaxFiles` files are rejected and nothing changes;
     * otherwise the list is replaced, and a non-empty upload shows its first file.
     */
    method Upload(files: seq<SourceFile>) returns (accepted: bool)
      requires Valid()
      modifies this
      ensures Valid()
      ensures accepted <==> |files| <= MaxFiles
      ensures !accepted ==> images == old(images) && currentIndex == old(currentIndex) && currentFile == old(currentFile)
      ensures accepted ==> images == files
      ensures accepted && |files| > 0 ==> currentIndex == 0 && currentFile == Some(files[0])
      ensures accepted && |files| == 0 ==> currentIndex == old(currentIndex) && currentFile == old(currentFile)
    {
      if |files| > MaxFiles {
        return false;
      }
      images := files;
      if |files| == 0 {
        return true;
      }
      currentIndex := 0;
      currentFile := Some(images[currentIndex]);
      return true;
    }

    /** The previous button: steps back with wrap-around, or does nothing without images. */
    method Prev()
      requires Valid()
      modifies this
      ensures Valid() && images == old(images)
      ensures |images| == 0 ==> currentIndex == old(currentIndex) && currentFile == old(currentFile)
      ensures |images| > 0 ==> currentIndex == PrevIndex(old(currentIndex), |images|)
    {
      if |images| > 0 {
        StepsStayInRange(currentIndex, |images|);
        currentIndex := PrevIndex(currentIndex, |images|);
        currentFile := Some(images[currentIndex]);
      }
    }

    /** The next button: steps forward with wrap-around, or does nothing without images. */
    method Next()
      requires Valid()
      modifies this
      ensures Valid() && images == old(images)
      ensures |images| == 0 ==> currentIndex == old(currentIndex) && currentFile == old(currentFile)
      ensures |images| > 0 ==> currentIndex == NextIndex(old(currentIndex), |images|)
    {
      if |images| > 0 {
        StepsStayInRange(currentIndex, |images|);
        currentIndex := NextIndex(currentIndex, |images|);
        currentFile := Some(images[currentIndex]);
      }
    }

    /**
     * The names a download saves under: with more than one image, one archive
     * entry per image in list order; otherwise the current file alone, which
     * fails when there is none.
     */
    method DownloadNames(templateId: string) returns (r: Result<seq<string>, DownloadError>)
      ensures |images| > 1 ==>
        && r.Ok? && |r.value| == |images|
        && forall i :: 0 <= i < |images| ==> r.value[i] == FileNames.OutputFileName(images[i].name, templateId)
      ensures |images| <= 1 && currentFile.None? ==> r == Err(NoCurrentFile)
      ensures |images| <= 1 && currentFile.Some? ==>
        r == Ok([FileNames.OutputFileName(currentFile.value.name, templateId)])
    {
      if |images| > 1 {
        var names: seq<string> := [];
        for i := 0 to |images|
          invariant |names| == i
          invariant forall j :: 0 <= j < i ==> names[j] == FileNames.OutputFileName(images[j].name, templateId)
        {
          names := names + [FileNames.OutputFileName(images[i].name, templateId)];
        }
        return Ok(names);
      }
      if currentFile.None? {
        return Err(NoCurrentFile);
      }
      return Ok([FileNames.OutputFileName(currentFile.value.name, templateId)]);
    }
  }
}
