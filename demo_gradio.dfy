/**
  Two deterministic pieces of the Gradio demo tools (src/tools/demo_gradio.py):
  the frame-sampling loop of `vggt_extract_video_frames` with the summary it
  records, and the GLB file name that `vggt_create_3d_scene` builds from
  its options.

  The video decoder is replaced by the sequence of frames it yields; the
  frame rate, the clock-based default prefix and the existence test of the
  video file are inputs.
*/
module DemoGradio {

  import opened Wrappers
  import opened Text

  /** A decoded video frame (its pixels are not inspected). */
  datatype Frame = Frame(pixels: seq<int>)

  /** The exceptions raised before or during extraction. */
  datatype FrameError =
    | MissingVideoPath      // ValueError: no video_path
    | VideoNotFound         // FileNotFoundError: the file does not exist
    | ZeroInterval          // ZeroDivisionError: `count % frame_interval` with interval 0

  /** Python's `int(x)` on a float: truncation toward zero. */
  function Truncate(x: real): (n: int)
    ensures x >= 0.0 ==> n as real <= x < n as real + 1.0
    ensures x < 0.0 ==> n as real - 1.0 < x <= n as real
  {
    if x >= 0.0 then x.Floor else -((-x).Floor)
  }

  /** `frame_interval = int(fps * frame_interval_seconds)` (exact arithmetic, no float rounding). */
  function FrameInterval(fps: real, seconds: real): (n: int)
    ensures fps * seconds >= 0.0 ==> 0 <= n && n as real <= fps * seconds < n as real + 1.0
  {
    Truncate(fps * seconds)
  }

  /** An interval shorter than one frame truncates to 0. */
  lemma SubFrameIntervalIsZero(fps: real, seconds: real)
    requires 0.0 <= fps * seconds < 1.0
    ensures FrameInterval(fps, seconds) == 0
  {
  }

  /** Python's `a % b` for b != 0: the remainder takes the sign of the divisor. */
  function PyMod(a: int, b: int): (r: int)
    requires b != 0
    ensures b > 0 ==> 0 <= r < b
    ensures b < 0 ==> b < r <= 0
    ensures r == 0 <==> a % b == 0
  {
    var e := a % b;
    if e != 0 && b < 0 then e + b else e
  }

  /** Python's remainder is 0 exactly when the divisor's magnitude divides the number. */
  lemma PyModZero(a: int, b: int)
    requires b != 0
    ensures PyMod(a, b) == 0 <==> a % Abs(b) == 0
  {
    if b < 0 {
      DivisibleByNegation(a, b);
    }
  }

  function Abs(b: int): nat
  {
    if b < 0 then -b else b
  }

  lemma DivisibleByNegation(a: int, b: int)
    requires b < 0
    ensures a % b == 0 <==> a % -b == 0
  {
    if a % b == 0 {
      var q := a / b;
      assert a == (-q) * (-b);
      DivUnique(a, -b, -q, 0);
    }
    if a % -b == 0 {
      var q := a / -b;
      assert a == (-q) * b;
      DivUnique(a, b, -q, 0);
    }
  }

  /** Multiplying by a non-zero integer moves at least one multiple away from 0. */
  lemma {:induction false} MulMono(m: int, d: int)
    requires m >= 1
    ensures d >= 1 ==> d * m >= m
    ensures d <= -1 ==> d * m <= -m
    decreases if d < 0 then -d else d
  {
    if d > 1 {
      MulMono(m, d - 1);
    } else if d < -1 {
      MulMono(m, d + 1);
    }
  }

  /** Euclidean division is determined by the quotient and a remainder in range. */
  lemma DivUnique(a: int, m: int, q: int, r: int)
    requires m != 0 && a == q * m + r && 0 <= r < Abs(m)
    ensures a / m == q && a % m == r
  {
    var bigQ, bigR := a / m, a % m;
    if m > 0 {
      MulMono(m, bigQ - q);
    } else {
      MulMono(-m, q - bigQ);
    }
  }

  /** The frames that are saved: the 1-based count is a multiple of the interval. */
  function Sampled(video: seq<Frame>, m: nat): (s: seq<Frame>)
    requires m >= 1
    ensures |s| == |video| / m
  {
    var k := |video| / m;
    seq(k, i requires 0 <= i < k => SampledAt(video, m, i))
  }

  function SampledAt(video: seq<Frame>, m: nat, i: nat): Frame
    requires m >= 1 && i < |video| / m
  {
    LastOfBlock(|video|, m, i);
    video[(i + 1) * m - 1]
  }

  lemma LastOfBlock(t: nat, m: nat, i: nat)
    requires m >= 1 && i < t / m
    ensures 0 <= (i + 1) * m - 1 < t
  {
    var q := t / m;
    MulMono(m, q - (i + 1));
    MulMono(m, i + 1);
  }

  /** `output_dir / f"{video_frame_num:06}.png"` as a string. */
  function FramePath(dir: string, i: nat): (p: string)
    ensures |p| >= |dir| + 11
    ensures p[..|dir| + 1] == dir + "/" && p[|p| - 4..] == ".png"
  {
    dir + "/" + ZeroPad(i, 6) + ".png"
  }

  function FramePaths(dir: string, k: nat): (ps: seq<string>)
    ensures |ps| == k && forall i :: 0 <= i < k ==> ps[i] == FramePath(dir, i)
  {
    seq(k, i requires 0 <= i < k => FramePath(dir, i))
  }

  /** A row of the summary CSV. */
  datatype SummaryRow = SummaryRow(frameNumber: nat, framePath: string, originalFrameIndex: int)

  /** The summary as the source builds it: row i records i * frame_interval as the original index. */
  function Summary(paths: seq<string>, interval: int): (rows: seq<SummaryRow>)
    ensures |rows| == |paths|
  {
    seq(|paths|, i requires 0 <= i < |paths| => SummaryRow(i, paths[i], i * interval))
  }

  /** What a successful extraction produces. */
  datatype Extraction = Extraction(written: seq<(string, Frame)>, imagePaths: seq<string>, summary: seq<SummaryRow>)

  function Written(paths: seq<string>, frames: seq<Frame>): (w: seq<(string, Frame)>)
    requires |paths| == |frames|
    ensures |w| == |paths|
  {
    seq(|paths|, i requires 0 <= i < |paths| => (paths[i], frames[i]))
  }

  /**
    `vggt_extract_video_frames`: checks the path, then reads every frame,
    saving frame number `count` (from 1) when `count % frame_interval == 0`,
    under consecutive zero-padded names, and records the summary.
  */
  method ExtractVideoFrames(videoPath: Option<string>, fileExists: bool, outputDir: string, video: seq<Frame>, fps: real, seconds: real)
    returns (r: Result<Extraction, FrameError>)
    ensures videoPath.None? ==> r == Failure(MissingVideoPath)
    ensures videoPath.Some? && !fileExists ==> r == Failure(VideoNotFound)
    ensures videoPath.Some? && fileExists && FrameInterval(fps, seconds) == 0 ==>
      if |video| == 0 then r == Success(Extraction([], [], [])) else r == Failure(ZeroInterval)
    ensures videoPath.Some? && fileExists && FrameInterval(fps, seconds) != 0 ==>
      var n := FrameInterval(fps, seconds);
      var frames := Sampled(video, Abs(n));
      var paths := FramePaths(outputDir, |frames|);
      r == Success(Extraction(Written(paths, frames), paths, Summary(paths, n)))
  {
    if videoPath.None? {
      return Failure(MissingVideoPath);
    }
    if !fileExists {
      return Failure(VideoNotFound);
    }
    var n := FrameInterval(fps, seconds);
    var sampled := ReadFrames(outputDir, video, n);
    if sampled.Failure? {
      return Failure(sampled.error);
    }
    var (written, imagePaths) := sampled.value;
    if imagePaths == [] {
      assert Summary(imagePaths, n) == [];
    }
    r := Success(Extraction(written, imagePaths, Summary(imagePaths, n)));
  }

  /** The `while True` loop over the decoded frames. */
  method ReadFrames(outputDir: string, video: seq<Frame>, n: int)
    returns (r: Result<(seq<(string, Frame)>, seq<string>), FrameError>)
    ensures n == 0 ==> if |video| == 0 then r == Success(([], [])) else r == Failure(ZeroInterval)
    ensures n != 0 ==>
      var frames := Sampled(video, Abs(n));
      var paths := FramePaths(outputDir, |frames|);
      r == Success((Written(paths, frames), paths))
  {
    var count := 0;
    var videoFrameNum := 0;
    var imagePaths: seq<string> := [];
    var written: seq<(string, Frame)> := [];
    ghost var frames: seq<Frame> := [];
    while count < |video|
      invariant count <= |video|
      invariant n != 0 ==> frames == Sampled(video[..count], Abs(n))
      invariant n == 0 ==> count == 0 && frames == []
      invariant videoFrameNum == |frames| && imagePaths == FramePaths(outputDir, |frames|)
      invariant written == Written(imagePaths, frames)
    {
      var frame := video[count];
      count := count + 1;
      if n == 0 {
        return Failure(ZeroInterval);
      }
      SampleStep(video, Abs(n), count - 1);
      PyModZero(count, n);
      if PyMod(count, n) == 0 {
        var imagePath := FramePath(outputDir, videoFrameNum);
        assert FramePaths(outputDir, |frames| + 1) == imagePaths + [imagePath];
        assert Written(imagePaths + [imagePath], frames + [frame]) == written + [(imagePath, frame)];
        written := written + [(imagePath, frame)];
        imagePaths := imagePaths + [imagePath];
        frames := frames + [frame];
        videoFrameNum := videoFrameNum + 1;
      }
    }
    assert video[..count] == video;
    r := Success((written, imagePaths));
  }

  /** Reading one more frame extends the sampled frames by it exactly when its count is a multiple of m. */
  lemma SampleStep(video: seq<Frame>, m: nat, c: nat)
    requires m >= 1 && c < |video|
    ensures (c + 1) % m == 0 ==> Sampled(video[..c + 1], m) == Sampled(video[..c], m) + [video[c]]
    ensures (c + 1) % m != 0 ==> Sampled(video[..c + 1], m) == Sampled(video[..c], m)
  {
    var q, r := c / m, c % m;
    assert c == q * m + r;
    var a, b := Sampled(video[..c], m), Sampled(video[..c + 1], m);
    if r == m - 1 {
      DivUnique(c + 1, m, q + 1, 0);
      assert |b| == q + 1 && |a| == q;
      assert (q + 1) * m - 1 == c;
      forall i | 0 <= i < q ensures b[i] == a[i] {
        LastOfBlock(c, m, i);
      }
      assert b == a + [video[c]];
    } else {
      DivUnique(c + 1, m, q, r + 1);
      assert |b| == |a|;
      forall i | 0 <= i < q ensures b[i] == a[i] {
        LastOfBlock(c, m, i);
      }
    }
  }

  /** For T frames and interval n the number saved is T div |n|. */
  lemma SavedCount(video: seq<Frame>, n: int)
    requires n != 0
    ensures |Sampled(video, Abs(n))| == |video| / Abs(n)
  {
  }

  /**
    The i-th saved frame is frame number (i+1)*n (1-based), but the summary
    records i*n as its original index: as written the two differ by n for
    a positive interval n.
  */
  lemma SummaryIndexOffset(video: seq<Frame>, dir: string, n: int, i: nat)
    requires n > 0 && i < |video| / n
    ensures var paths := FramePaths(dir, |video| / n);
      && Summary(paths, n)[i].originalFrameIndex == i * n
      && 0 <= (i + 1) * n - 1 < |video|
      && Sampled(video, n)[i] == video[(i + 1) * n - 1]
      && (i + 1) * n - Summary(paths, n)[i].originalFrameIndex == n
  {
    var paths := FramePaths(dir, |video| / n);
    assert Summary(paths, n)[i] == SummaryRow(i, paths[i], i * n);
    LastOfBlock(|video|, n, i);
    assert Sampled(video, n)[i] == SampledAt(video, n, i);
    assert (i + 1) * n == i * n + n;
  }

  /** Saved files get pairwise different names, numbered from 000000 upward. */
  lemma FramePathsDistinct(dir: string, k: nat)
    ensures forall i, j :: 0 <= i < j < k ==> FramePaths(dir, k)[i] != FramePaths(dir, k)[j]
    ensures k >= 1 ==> FramePaths(dir, k)[0] == dir + "/000000.png"
  {
    forall i, j | 0 <= i < j < k ensures FramePath(dir, i) != FramePath(dir, j) {
      if FramePath(dir, i) == FramePath(dir, j) {
        var pi, pj := ZeroPad(i, 6), ZeroPad(j, 6);
        var s := FramePath(dir, i);
        assert |pi| == |pj|;
        assert s[|dir| + 1..|dir| + 1 + |pi|] == pi;
        assert FramePath(dir, j)[|dir| + 1..|dir| + 1 + |pj|] == pj;
        ZeroPadInjective(i, j, 6);
      }
    }
    if k >= 1 {
      assert NatToString(0) == "0";
      assert Zeros(5) == "00000";
      assert ZeroPad(0, 6) == "000000";
    }
  }

  // ---------------------------------------------------------------------
  // The GLB file name of vggt_create_3d_scene
  // ---------------------------------------------------------------------

  /** `str(b)` for a Python bool. */
  function BoolText(b: bool): string
  {
    if b then "True" else "False"
  }

  /** `frame_filter.replace('.', '_').replace(':', '').replace(' ', '_')`. */
  function SanitizeFilter(s: string): (r: string)
    ensures |r| <= |s|
    ensures ':' !in s ==> |r| == |s|
  {
    var dots := ReplaceChar(s, '.', '_');
    RemoveCharCount(dots, ':');
    ReplaceChar(RemoveChar(dots, ':'), ' ', '_')
  }

  /**
    The GLB file name. The confidence threshold is a float whose rendering
    is not modelled; it is given as its text.
  */
  function GlbFileName(confText: string, frameFilter: string, maskBlack: bool, maskWhite: bool,
                       showCam: bool, maskSky: bool, predictionMode: string): (name: string)
    ensures |name| >= 55 + |confText| + |SanitizeFilter(frameFilter)| + |predictionMode|
  {
    GlbHead(confText) + SanitizeFilter(frameFilter) + GlbFlags(maskBlack, maskWhite, showCam, maskSky)
    + ReplaceChar(predictionMode, ' ', '_') + ".glb"
  }

  /** "glbscene_", the confidence text and the '_' before the filter. */
  function GlbHead(confText: string): string
  {
    "glbscene_" + confText + "_"
  }

  /**
    The four mask and camera flags between the filter and the prediction mode,
    up to "pred": "_maskb<b>_maskw<w>_cam<c>_sky<s>_pred".
  */
  function GlbFlags(maskBlack: bool, maskWhite: bool, showCam: bool, maskSky: bool): string
  {
    Flag("_maskb", maskBlack, Flag("_maskw", maskWhite, Flag("_cam", showCam, Flag("_sky", maskSky, "_pred"))))
  }

  /** One flag of the name: its tag, `str(b)`, then the rest of the name. */
  function Flag(tag: string, b: bool, rest: string): string
  {
    tag + BoolText(b) + rest
  }

  /** The flags field spelled out. */
  lemma GlbFlagsText(maskBlack: bool, maskWhite: bool, showCam: bool, maskSky: bool)
    ensures GlbFlags(maskBlack, maskWhite, showCam, maskSky)
         == "_maskb" + BoolText(maskBlack) + "_maskw" + BoolText(maskWhite) + "_cam" + BoolText(showCam)
            + "_sky" + BoolText(maskSky) + "_pred"
  {
    Nest("_maskb", BoolText(maskBlack), "_maskw", BoolText(maskWhite), "_cam", BoolText(showCam),
         "_sky", BoolText(maskSky), "_pred");
  }

  /** Four nested flags flatten into one concatenation. */
  lemma Nest<T>(a: seq<T>, b: seq<T>, c: seq<T>, d: seq<T>, e: seq<T>, f: seq<T>, g: seq<T>, h: seq<T>, i: seq<T>)
    ensures a + b + (c + d + (e + f + (g + h + i))) == a + b + c + d + e + f + g + h + i
  {
  }

  /** Equal flags with the same tag carry the same value and are followed by the same text. */
  lemma FlagCancel(tag: string, x: bool, y: bool, r1: string, r2: string)
    requires Flag(tag, x, r1) == Flag(tag, y, r2)
    ensures x == y && r1 == r2
  {
    var g1, g2 := Flag(tag, x, r1), Flag(tag, y, r2);
    assert g1[|tag|] == BoolText(x)[0] && g2[|tag|] == BoolText(y)[0];
    assert r1 == g1[|tag| + |BoolText(x)|..];
    assert r2 == g2[|tag| + |BoolText(y)|..];
  }

  lemma Affixes<T>(p: seq<T>, m: seq<T>, q: seq<T>)
    ensures var s := p + m + q;
      && |s| == |p| + |m| + |q| && s[..|p|] == p && s[|s| - |q|..] == q
  {
  }

  /**
    The sanitised filter contains no '.', ':' or ' ', and every other
    character of the filter (other than '_') is present in it exactly when
    it was present before.
  */
  lemma SanitizeFilterClean(s: string)
    ensures var r := SanitizeFilter(s);
      && '.' !in r && ':' !in r && ' ' !in r
      && forall c :: c !in {'.', ':', ' ', '_'} ==> (c in r <==> c in s)
  {
    var a := ReplaceChar(s, '.', '_');
    var b := RemoveChar(a, ':');
    var r := ReplaceChar(b, ' ', '_');
    assert '.' !in a;
    assert '.' !in b;
    forall c | c !in {'.', ':', ' ', '_'} ensures (c in r <==> c in s) {
      assert c in a <==> c in s by {
        if c in s {
          var i :| 0 <= i < |s| && s[i] == c;
          assert a[i] == c;
        }
      }
      assert c in r <==> c in b by {
        if c in b {
          var i :| 0 <= i < |b| && b[i] == c;
          assert r[i] == c;
        }
      }
    }
  }

  lemma ReplaceCharAbsent(s: string, a: char, b: char)
    requires a !in s
    ensures ReplaceChar(s, a, b) == s
  {
  }

  /** Sanitising an already sanitised filter changes nothing. */
  lemma SanitizeFilterIdempotent(s: string)
    ensures SanitizeFilter(SanitizeFilter(s)) == SanitizeFilter(s)
  {
    var r := SanitizeFilter(s);
    SanitizeFilterClean(s);
    ReplaceCharAbsent(r, '.', '_');
    RemoveCharAbsent(r, ':');
    ReplaceCharAbsent(r, ' ', '_');
  }

  /**
    The layout of a GLB file name: "glbscene_", the confidence text and '_',
    then the filter field f, the flags field up to "pred", the
    prediction-mode field pm and ".glb".
  */
  predicate GlbLayout(name: string, confText: string, f: string, flags: string, pm: string)
  {
    var lo, hi := |name| - 4 - |pm|, 10 + |confText| + |f|;
    && hi + |flags| == lo <= |name| - 4
    && name[..9] == "glbscene_" && name[9..9 + |confText|] == confText && name[9 + |confText|] == '_'
    && name[10 + |confText|..hi] == f
    && name[hi..lo] == flags
    && name[lo..|name| - 4] == pm
    && name[|name| - 4..] == ".glb"
  }

  /**
    The name has that layout, with the sanitised filter as its filter field,
    the four options' texts as its flags field, and the prediction mode with
    spaces replaced by '_' as its last field.
  */
  lemma GlbFileNameShape(confText: string, frameFilter: string, maskBlack: bool, maskWhite: bool,
                         showCam: bool, maskSky: bool, predictionMode: string)
    ensures GlbLayout(GlbFileName(confText, frameFilter, maskBlack, maskWhite, showCam, maskSky, predictionMode),
                      confText, SanitizeFilter(frameFilter), GlbFlags(maskBlack, maskWhite, showCam, maskSky),
                      ReplaceChar(predictionMode, ' ', '_'))
  {
    GlbHeadShape(confText);
    NameLayout(GlbHead(confText), SanitizeFilter(frameFilter), GlbFlags(maskBlack, maskWhite, showCam, maskSky),
               ReplaceChar(predictionMode, ' ', '_'), confText);
  }

  /** Different mask, camera or sky options give different flags fields. */
  lemma GlbFlagsInjective(b1: bool, w1: bool, c1: bool, s1: bool, b2: bool, w2: bool, c2: bool, s2: bool)
    requires GlbFlags(b1, w1, c1, s1) == GlbFlags(b2, w2, c2, s2)
    ensures b1 == b2 && w1 == w2 && c1 == c2 && s1 == s2
  {
    var sky1, sky2 := Flag("_sky", s1, "_pred"), Flag("_sky", s2, "_pred");
    var cam1, cam2 := Flag("_cam", c1, sky1), Flag("_cam", c2, sky2);
    var white1, white2 := Flag("_maskw", w1, cam1), Flag("_maskw", w2, cam2);
    FlagCancel("_maskb", b1, b2, white1, white2);
    FlagCancel("_maskw", w1, w2, cam1, cam2);
    FlagCancel("_cam", c1, c2, sky1, sky2);
    FlagCancel("_sky", s1, s2, "_pred", "_pred");
  }

  /**
    With the same confidence text, filter and prediction mode, two GLB names
    are equal only when all four options are: no two option settings share a file.
  */
  lemma GlbFileNameSeparatesOptions(confText: string, frameFilter: string, predictionMode: string,
                                    b1: bool, w1: bool, c1: bool, s1: bool, b2: bool, w2: bool, c2: bool, s2: bool)
    requires GlbFileName(confText, frameFilter, b1, w1, c1, s1, predictionMode)
          == GlbFileName(confText, frameFilter, b2, w2, c2, s2, predictionMode)
    ensures b1 == b2 && w1 == w2 && c1 == c2 && s1 == s2
  {
    var name := GlbFileName(confText, frameFilter, b1, w1, c1, s1, predictionMode);
    var f, pm := SanitizeFilter(frameFilter), ReplaceChar(predictionMode, ' ', '_');
    GlbFileNameShape(confText, frameFilter, b1, w1, c1, s1, predictionMode);
    GlbFileNameShape(confText, frameFilter, b2, w2, c2, s2, predictionMode);
    LayoutFlags(name, confText, f, GlbFlags(b1, w1, c1, s1), pm);
    LayoutFlags(name, confText, f, GlbFlags(b2, w2, c2, s2), pm);
    GlbFlagsInjective(b1, w1, c1, s1, b2, w2, c2, s2);
  }

  /**
    In the name, the filter field holds no '.', ':' or ' ', and the
    prediction-mode field holds no space.
  */
  lemma GlbFileNameClean(confText: string, frameFilter: string, maskBlack: bool, maskWhite: bool,
                         showCam: bool, maskSky: bool, predictionMode: string)
    ensures var name, f := GlbFileName(confText, frameFilter, maskBlack, maskWhite, showCam, maskSky, predictionMode), SanitizeFilter(frameFilter);
      var lo, hi := |name| - 4 - |predictionMode|, 10 + |confText| + |f|;
      && hi <= lo <= |name| - 4
      && '.' !in name[10 + |confText|..hi] && ':' !in name[10 + |confText|..hi] && ' ' !in name[10 + |confText|..hi]
      && ' ' !in name[lo..|name| - 4]
  {
    var name := GlbFileName(confText, frameFilter, maskBlack, maskWhite, showCam, maskSky, predictionMode);
    var f, pm := SanitizeFilter(frameFilter), ReplaceChar(predictionMode, ' ', '_');
    GlbFileNameShape(confText, frameFilter, maskBlack, maskWhite, showCam, maskSky, predictionMode);
    SanitizeFilterClean(frameFilter);
    assert ' ' !in pm;
    LayoutFields(name, confText, f, GlbFlags(maskBlack, maskWhite, showCam, maskSky), pm);
  }

  /** The filter and prediction-mode fields of a name with the GLB layout are f and pm. */
  lemma LayoutFields(name: string, confText: string, f: string, flags: string, pm: string)
    requires GlbLayout(name, confText, f, flags, pm)
    ensures |name| >= 14 + |confText| + |f| + |pm|
    ensures name[10 + |confText|..10 + |confText| + |f|] == f
    ensures name[|name| - 4 - |pm|..|name| - 4] == pm
  {
  }

  /** The flags field of a name with the GLB layout is fixed by the other fields. */
  lemma LayoutFlags(name: string, confText: string, f: string, flags: string, pm: string)
    requires GlbLayout(name, confText, f, flags, pm)
    ensures flags == name[10 + |confText| + |f|..|name| - 4 - |pm|]
  {
  }

  lemma GlbHeadShape(confText: string)
    ensures var h := GlbHead(confText);
      && |h| == 10 + |confText| && h[..9] == "glbscene_" && h[9..9 + |confText|] == confText && h[9 + |confText|] == '_'
  {
  }

  /** Where each part of a name head + f + flags + pm + ".glb" sits. */
  lemma NameLayout(head: string, f: string, flags: string, pm: string, confText: string)
    requires |head| == 10 + |confText| && head[..9] == "glbscene_" && head[9..9 + |confText|] == confText && head[9 + |confText|] == '_'
    ensures GlbLayout(head + f + flags + pm + ".glb", confText, f, flags, pm)
  {
    var name := head + f + flags + pm + ".glb";
    Fields(head, f, flags, pm, ".glb");
    SliceOfSlice(name, head, 0, 9);
    SliceOfSlice(name, head, 9, 9 + |confText|);
    assert name[9 + |confText|] == head[9 + |confText|];
  }

  /** A slice of a prefix is the same slice of the whole. */
  lemma SliceOfSlice<T>(s: seq<T>, a: seq<T>, x: nat, y: nat)
    requires x <= y <= |a| <= |s| && s[..|a|] == a
    ensures s[x..y] == a[x..y]
  {
    assert forall m :: x <= m < y ==> s[m] == s[..|a|][m];
  }

  /** The five parts of a concatenation are its consecutive slices. */
  lemma Fields<T>(a: seq<T>, b: seq<T>, c: seq<T>, d: seq<T>, e: seq<T>)
    ensures var s := a + b + c + d + e;
      var i, j, k := |a| + |b|, |a| + |b| + |c|, |a| + |b| + |c| + |d|;
      && |s| == k + |e|
      && s[..|a|] == a && s[|a|..i] == b && s[i..j] == c && s[j..k] == d && s[k..] == e
  {
  }
}
