/**
 * The streaming encode pipeline: a processor that moves through
 * IDLE -> STARTING -> PROCESSING -> FINISHING -> COMPLETED (or ERROR, or
 * SHUTTING_DOWN), a bounded frame queue that drops instead of blocking, a
 * consumer that packs each frame into raw RGB24 bytes and writes them to the
 * encoder's standard input, the encoder's argument list, and the running
 * processing metrics.
 *
 * The encoder subprocess is the field `stdin` (the bytes it has been sent)
 * plus its exit code, given to FinishProcessing. Whether a write succeeds,
 * how long a frame took and the image scaler are parameters.
 */
module VideoProcessor {
  import opened Common

  const BufferCapacity := 100
  const DefaultFrameRate := 5
  const DefaultWidth := 1280
  const DefaultHeight := 720
  const DefaultCodec := "libx264"
  const DefaultPreset := "veryfast"

  /** The encoder settings configure sets together. */
  datatype EncoderSettings = EncoderSettings(frameRate: nat, width: nat, height: nat, codec: string,
                                             preset: string, useHardwareAcceleration: bool)

  const DefaultSettings := EncoderSettings(DefaultFrameRate, DefaultWidth, DefaultHeight, DefaultCodec,
                                           DefaultPreset, false)

  datatype ProcessingState = Idle | Starting | Processing | Finishing | Completing | Completed | Error | ShuttingDown

  // ---------------------------------------------------------------------
  // Pixels and RGB24 packing
  // ---------------------------------------------------------------------

  /** A pixel grid: rows[y][x] is the packed 0xAARRGGBB value getRGB(x, y) returns. */
  datatype Raster = Raster(width: nat, height: nat, rows: seq<seq<bv32>>)
  {
    predicate WellFormed()
    {
      |rows| == height && forall y :: 0 <= y < height ==> |rows[y]| == width
    }
  }

  type Image = r: Raster | r.WellFormed() witness Raster(0, 0, [])

  /** Channel 0, 1, 2 of a packed pixel: (rgb >> 16) & 0xFF, (rgb >> 8) & 0xFF, rgb & 0xFF. */
  function Channel(rgb: bv32, c: nat): bv8
    requires c < 3
  {
    if c == 0 then ((rgb >> 16) & 0xFF) as bv8
    else if c == 1 then ((rgb >> 8) & 0xFF) as bv8
    else (rgb & 0xFF) as bv8
  }

  /** The three bytes of one pixel: red, green, blue. */
  function Rgb(p: bv32): seq<bv8>
  {
    [Channel(p, 0), Channel(p, 1), Channel(p, 2)]
  }

  /** The red, green and blue bytes of each pixel of a row, left to right. */
  function RowBytes(row: seq<bv32>): (r: seq<bv8>)
    ensures |r| == 3 * |row|
  {
    if row == [] then [] else RowBytes(row[..|row| - 1]) + Rgb(row[|row| - 1])
  }

  lemma RowBytesSnoc(row: seq<bv32>, x: nat)
    requires x < |row|
    ensures RowBytes(row[..x + 1]) == RowBytes(row[..x]) + Rgb(row[x])
  {
    assert row[..x + 1][..x] == row[..x];
  }

  lemma RowsBytesSnoc(rows: seq<seq<bv32>>, y: nat)
    requires y < |rows|
    ensures RowsBytes(rows[..y + 1]) == RowsBytes(rows[..y]) + RowBytes(rows[y])
  {
    assert rows[..y + 1][..y] == rows[..y];
  }

  lemma {:induction false} RowsBytesAppend(a: seq<seq<bv32>>, b: seq<seq<bv32>>)
    ensures RowsBytes(a + b) == RowsBytes(a) + RowsBytes(b)
    decreases |b|
  {
    if b != [] {
      var n := |b|;
      assert (a + b)[..|a + b| - 1] == a + b[..n - 1];
      assert (a + b)[|a + b| - 1] == b[n - 1];
      RowsBytesAppend(a, b[..n - 1]);
      calc {
        RowsBytes(a + b);
        RowsBytes(a + b[..n - 1]) + RowBytes(b[n - 1]);
        (RowsBytes(a) + RowsBytes(b[..n - 1])) + RowBytes(b[n - 1]);
        RowsBytes(a) + (RowsBytes(b[..n - 1]) + RowBytes(b[n - 1]));
        RowsBytes(a) + RowsBytes(b);
      }
    } else {
      assert a + b == a;
    }
  }

  lemma PixelOffset(w: nat, y: nat, x: nat, c: nat)
    ensures 3 * (y * w + x) + c == 3 * w * y + (3 * x + c)
  {
  }

  /** Row y of h rows of `stride` bytes occupies bytes stride * y up to stride * (y + 1), within stride * h. */
  lemma RowInBounds(stride: nat, h: nat, y: nat)
    requires y < h
    ensures stride * y + stride == stride * (y + 1) <= stride * h
  {
    MulLeq(stride, y + 1, h);
  }

  lemma MulLeq(a: nat, b: nat, c: nat)
    requires b <= c
    ensures a * b <= a * c
  {
  }

  /** The rows' bytes, top to bottom. */
  function RowsBytes(rows: seq<seq<bv32>>): seq<bv8>
  {
    if rows == [] then [] else RowsBytes(rows[..|rows| - 1]) + RowBytes(rows[|rows| - 1])
  }

  /** The RGB24 encoding of an image: row-major, three bytes per pixel. */
  function RawRgb(image: Image): seq<bv8>
  {
    RowsBytes(image.rows)
  }

  lemma {:induction false} RowsBytesLength(rows: seq<seq<bv32>>, w: nat)
    requires forall y :: 0 <= y < |rows| ==> |rows[y]| == w
    ensures |RowsBytes(rows)| == 3 * w * |rows|
  {
    if rows != [] {
      var n := |rows|;
      RowsBytesLength(rows[..n - 1], w);
      assert 3 * w * (n - 1) + 3 * w == 3 * w * n;
    }
  }

  lemma {:induction false} RowBytesAt(row: seq<bv32>, x: nat, c: nat)
    requires x < |row| && c < 3
    ensures RowBytes(row)[3 * x + c] == Channel(row[x], c)
  {
    var n := |row|;
    assert RowBytes(row) == RowBytes(row[..n - 1]) + Rgb(row[n - 1]);
    if x < n - 1 {
      RowBytesAt(row[..n - 1], x, c);
      assert row[..n - 1][x] == row[x];
    }
  }

  /** The RGB24 encoding has exactly width * height * 3 bytes. */
  lemma RawRgbLength(image: Image)
    ensures |RawRgb(image)| == 3 * image.width * image.height
  {
    RowsBytesLength(image.rows, image.width);
  }

  /** Byte 3 * (y * width + x) + c is channel c (red, green, blue) of pixel (x, y). */
  lemma RowsBytesAt(rows: seq<seq<bv32>>, w: nat, y: nat, x: nat, c: nat)
    requires forall i :: 0 <= i < |rows| ==> |rows[i]| == w
    requires y < |rows| && x < w && c < 3
    ensures 3 * (y * w + x) + c < |RowsBytes(rows)|
    ensures RowsBytes(rows)[3 * (y * w + x) + c] == Channel(rows[y][x], c)
  {
    var before := rows[..y];
    var after := rows[y + 1..];
    assert rows == before + [rows[y]] + after;
    RowsBytesAppend(before + [rows[y]], after);
    RowsBytesAppend(before, [rows[y]]);
    assert RowsBytes([rows[y]]) == RowBytes(rows[y]) by {
      assert [rows[y]][..0] == [];
    }
    var pre := RowsBytes(before);
    var row := RowBytes(rows[y]);
    var post := RowsBytes(after);
    assert RowsBytes(rows) == pre + row + post;
    RowsBytesLength(before, w);
    var k := 3 * x + c;
    assert k < |row| by {
      assert |row| == 3 * w;
    }
    assert 3 * (y * w + x) + c == |pre| + k by {
      assert |pre| == 3 * w * y;
      PixelOffset(w, y, x, c);
    }
    assert (pre + row + post)[|pre| + k] == row[k];
    RowBytesAt(rows[y], x, c);
  }

  lemma RawRgbAt(image: Image, y: nat, x: nat, c: nat)
    requires y < image.height && x < image.width && c < 3
    ensures 3 * (y * image.width + x) + c < |RawRgb(image)|
    ensures RawRgb(image)[3 * (y * image.width + x) + c] == Channel(image.rows[y][x], c)
  {
    RowsBytesAt(image.rows, image.width, y, x, c);
  }

  /** One pixel of convertToRawRGB: its red, green and blue bytes at `index`. */
  method PutPixel(raw: array<bv8>, index: nat, rgb: bv32)
    requires index + 3 <= raw.Length
    modifies raw
    ensures raw[..index + 3] == old(raw[..index]) + Rgb(rgb)
  {
    raw[index] := Channel(rgb, 0);
    raw[index + 1] := Channel(rgb, 1);
    raw[index + 2] := Channel(rgb, 2);
  }

  /** The inner loop of convertToRawRGB: one row's pixels written as RGB triples from `start` on. */
  method PackRow(row: seq<bv32>, raw: array<bv8>, start: nat)
    requires start + 3 * |row| <= raw.Length
    modifies raw
    ensures raw[..start + 3 * |row|] == old(raw[..start]) + RowBytes(row)
  {
    ghost var prefix := raw[..start];
    var index := start;
    var x := 0;
    while x < |row|
      invariant 0 <= x <= |row| && index == start + 3 * x
      invariant raw[..index] == prefix + RowBytes(row[..x])
    {
      PutPixel(raw, index, row[x]);
      RowBytesSnoc(row, x);
      index := index + 3;
      x := x + 1;
    }
    assert row[..x] == row;
  }

  /** convertToRawRGB: fills a width * height * 3 byte array row by row, pixel by pixel. */
  method ConvertToRawRgb(image: Image) returns (raw: array<bv8>)
    ensures raw.Length == 3 * image.width * image.height
    ensures raw[..] == RawRgb(image)
  {
    var w := image.width;
    var h := image.height;
    var stride := 3 * w;
    RawRgbLength(image);
    raw := new bv8[stride * h];
    var index: nat := 0;
    var y := 0;
    while y < h
      invariant 0 <= y <= h
      invariant index == stride * y && index <= raw.Length
      invariant raw[..index] == RowsBytes(image.rows[..y])
    {
      RowInBounds(stride, h, y);
      PackRow(image.rows[y], raw, index);
      RowsBytesSnoc(image.rows, y);
      index := index + stride;
      y := y + 1;
    }
    assert image.rows[..h] == image.rows;
    assert raw[..] == raw[..index];
  }

  // ---------------------------------------------------------------------
  // Decimal numbers in the argument list
  // ---------------------------------------------------------------------

  /** Reading a string of decimal digits back as a number. */
  function ParseNat(s: string): nat
    requires forall i :: 0 <= i < |s| ==> IsDigit(s[i])
  {
    if s == [] then 0
    else
      assert IsDigit(s[|s| - 1]);
      ParseNat(s[..|s| - 1]) * 10 + (s[|s| - 1] as int - '0' as int)
  }

  lemma {:induction false} ParseNatToString(n: nat)
    ensures ParseNat(NatToString(n)) == n
  {
    if n >= 10 {
      var s := NatToString(n);
      assert s[..|s| - 1] == NatToString(n / 10);
      ParseNatToString(n / 10);
    }
  }

  /** The "-s" value: width + "x" + height. */
  function Dimensions(width: nat, height: nat): string
  {
    NatToString(width) + "x" + NatToString(height)
  }

  /** The first position of `ch` in `s`. */
  function IndexOf(s: string, ch: char): (r: Option<nat>)
    ensures r.Some? ==> r.value < |s| && s[r.value] == ch && ch !in s[..r.value]
    ensures r.None? ==> ch !in s
  {
    if s == [] then None
    else if s[0] == ch then Some(0)
    else match IndexOf(s[1..], ch)
      case None => None
      case Some(i) => (assert s[..i + 1] == [s[0]] + s[1..][..i]; Some(i + 1))
  }

  /** Splitting a "WxH" value at its 'x' and reading both halves. */
  function ParseDimensions(s: string): Option<(nat, nat)>
  {
    match IndexOf(s, 'x')
    case None => None
    case Some(i) =>
      if (forall k :: 0 <= k < |s| && k != i ==> IsDigit(s[k]))
      then
        var w := s[..i];
        var h := s[i + 1..];
        assert forall k :: 0 <= k < |w| ==> IsDigit(w[k]) by {
          forall k | 0 <= k < |w| ensures IsDigit(w[k]) { assert w[k] == s[k]; }
        }
        assert forall k :: 0 <= k < |h| ==> IsDigit(h[k]) by {
          forall k | 0 <= k < |h| ensures IsDigit(h[k]) { assert h[k] == s[i + 1 + k]; }
        }
        Some((ParseNat(w), ParseNat(h)))
      else None
  }

  /** The frame size given to the encoder reads back as the configured width and height. */
  lemma DimensionsRoundTrip(width: nat, height: nat)
    ensures ParseDimensions(Dimensions(width, height)) == Some((width, height))
  {
    var ws := NatToString(width);
    var hs := NatToString(height);
    var s := Dimensions(width, height);
    assert s[|ws|] == 'x';
    assert 'x' !in s[..|ws|] by { assert s[..|ws|] == ws; }
    assert forall k :: 0 <= k < |ws| ==> s[k] == ws[k];
    assert IndexOf(s, 'x') == Some(|ws|);
    assert s[..|ws|] == ws;
    assert s[|ws| + 1..] == hs;
    ParseNatToString(width);
    ParseNatToString(height);
  }

  // ---------------------------------------------------------------------
  // The encoder's argument list
  // ---------------------------------------------------------------------

  /** Codecs that take a preset and a constant rate factor. */
  predicate IsX26x(codec: string)
  {
    codec == "libx264" || codec == "libx265"
  }

  /** Hardware decoder by platform: videotoolbox on mac, dxva2 on windows, vaapi elsewhere. */
  function HardwareAccelerator(osName: string): (r: string)
    ensures Contains(ToLower(osName), "mac") ==> r == "videotoolbox"
    ensures !Contains(ToLower(osName), "mac") && Contains(ToLower(osName), "win") ==> r == "dxva2"
    ensures !Contains(ToLower(osName), "mac") && !Contains(ToLower(osName), "win") ==> r == "vaapi"
  {
    var os := ToLower(osName);
    if Contains(os, "mac") then "videotoolbox"
    else if Contains(os, "win") then "dxva2"
    else "vaapi"
  }

  const PadFilter := "pad=ceil(iw/2)*2:ceil(ih/2)*2,format=yuv420p"

  /** The encoder path, overwrite, and the raw RGB24 standard-input stream of the given size and rate. */
  function InputArgs(ffmpegPath: string, width: nat, height: nat, frameRate: nat): seq<string>
  {
    [ffmpegPath, "-y", "-f", "rawvideo", "-pix_fmt", "rgb24",
     "-s", Dimensions(width, height), "-r", NatToString(frameRate), "-i", "pipe:0"]
  }

  function HardwareArgs(hardware: bool, osName: string): seq<string>
  {
    if hardware then ["-hwaccel", HardwareAccelerator(osName)] else []
  }

  function CodecArgs(codec: string, preset: string): seq<string>
  {
    ["-c:v", codec] + (if IsX26x(codec) then ["-preset", preset, "-crf", "23"] else [])
  }

  function OutputArgs(outputPath: string): seq<string>
  {
    ["-pix_fmt", "yuv420p", "-movflags", "+faststart", "-threads", "0", "-vf", PadFilter, outputPath]
  }

  /** The argument list, segment by segment. */
  function FFmpegCommand(ffmpegPath: string, width: nat, height: nat, frameRate: nat, codec: string,
                         preset: string, hardware: bool, osName: string, outputPath: string): seq<string>
  {
    InputArgs(ffmpegPath, width, height, frameRate) + HardwareArgs(hardware, osName)
    + CodecArgs(codec, preset) + OutputArgs(outputPath)
  }

  /**
   * The shape of the argument list: the path and -y first, the raw RGB24 pipe
   * input with its size and rate, -hwaccel (two extra entries) exactly when
   * hardware acceleration is on, -preset/-crf 23 (four extra entries) exactly
   * for libx264/libx265, and the output path last.
   */
  lemma FFmpegCommandShape(ffmpegPath: string, width: nat, height: nat, frameRate: nat, codec: string,
                           preset: string, hardware: bool, osName: string, outputPath: string)
    ensures var cmd := FFmpegCommand(ffmpegPath, width, height, frameRate, codec, preset, hardware, osName, outputPath);
            var hw := if hardware then 2 else 0;
            var x26x := if IsX26x(codec) then 4 else 0;
            |cmd| == 23 + hw + x26x
            && cmd[0] == ffmpegPath && cmd[1] == "-y"
            && cmd[6..8] == ["-s", Dimensions(width, height)]
            && cmd[8..10] == ["-r", NatToString(frameRate)]
            && cmd[10..12] == ["-i", "pipe:0"]
            && (hardware ==> cmd[12..14] == ["-hwaccel", HardwareAccelerator(osName)])
            && cmd[12 + hw..14 + hw] == ["-c:v", codec]
            && (IsX26x(codec) ==> cmd[14 + hw..18 + hw] == ["-preset", preset, "-crf", "23"])
            && cmd[14 + hw + x26x] == "-pix_fmt" && cmd[15 + hw + x26x] == "yuv420p"
            && cmd[|cmd| - 1] == outputPath
  {
    var input := InputArgs(ffmpegPath, width, height, frameRate);
    var hardwareArgs := HardwareArgs(hardware, osName);
    var codecArgs := CodecArgs(codec, preset);
    var output := OutputArgs(outputPath);
    var cmd := input + hardwareArgs + codecArgs + output;
    var hw := |hardwareArgs|;
    assert cmd[..12] == input;
    assert cmd[12..12 + hw] == hardwareArgs;
    assert cmd[12 + hw..12 + hw + |codecArgs|] == codecArgs;
    assert cmd[12 + hw + |codecArgs|..] == output;
    assert cmd[6..8] == input[6..8] && cmd[8..10] == input[8..10] && cmd[10..12] == input[10..12];
    assert cmd[12 + hw..14 + hw] == codecArgs[..2];
    assert IsX26x(codec) ==> cmd[14 + hw..18 + hw] == codecArgs[2..6];
    assert cmd[|cmd| - 1] == output[|output| - 1];
  }

  /** buildFFmpegCommand: appends the arguments to a list, one option at a time. */
  method BuildFFmpegCommand(ffmpegPath: string, width: nat, height: nat, frameRate: nat, codec: string,
                            preset: string, hardware: bool, osName: string, outputPath: string)
    returns (command: seq<string>)
    ensures command == FFmpegCommand(ffmpegPath, width, height, frameRate, codec, preset, hardware, osName, outputPath)
  {
    command := [ffmpegPath];
    command := command + ["-y"];
    command := command + ["-f", "rawvideo"];
    command := command + ["-pix_fmt", "rgb24"];
    command := command + ["-s", Dimensions(width, height)];
    command := command + ["-r", NatToString(frameRate)];
    command := command + ["-i", "pipe:0"];
    assert command == InputArgs(ffmpegPath, width, height, frameRate);
    ghost var input := command;
    if hardware {
      command := command + ["-hwaccel", HardwareAccelerator(osName)];
    }
    assert command == input + HardwareArgs(hardware, osName);
    ghost var inputAndHardware := command;
    command := command + ["-c:v", codec];
    if codec == "libx264" || codec == "libx265" {
      command := command + ["-preset", preset];
      command := command + ["-crf", "23"];
    }
    assert command == inputAndHardware + CodecArgs(codec, preset);
    ghost var beforeOutput := command;
    command := command + ["-pix_fmt", "yuv420p"];
    command := command + ["-movflags", "+faststart"];
    command := command + ["-threads", "0"];
    command := command + ["-vf", PadFilter];
    command := command + [outputPath];
    assert command == beforeOutput + OutputArgs(outputPath);
  }

  // ---------------------------------------------------------------------
  // Metrics and results
  // ---------------------------------------------------------------------

  function SumOf(xs: seq<int>): int
  {
    if xs == [] then 0 else SumOf(xs[..|xs| - 1]) + xs[|xs| - 1]
  }

  /** The running maximum, starting from 0. */
  function MaxOf(xs: seq<int>): int
  {
    if xs == [] then 0
    else
      var rest := MaxOf(xs[..|xs| - 1]);
      if xs[|xs| - 1] > rest then xs[|xs| - 1] else rest
  }

  /** The running maximum bounds every recorded time and is one of them, or 0. */
  lemma {:induction false} MaxOfBounds(xs: seq<int>)
    ensures MaxOf(xs) >= 0
    ensures forall i :: 0 <= i < |xs| ==> xs[i] <= MaxOf(xs)
    ensures MaxOf(xs) == 0 || exists i :: 0 <= i < |xs| && xs[i] == MaxOf(xs)
  {
    if xs != [] {
      var init := xs[..|xs| - 1];
      MaxOfBounds(init);
      assert forall i :: 0 <= i < |init| ==> init[i] == xs[i];
      if MaxOf(init) != 0 {
        var j :| 0 <= j < |init| && init[j] == MaxOf(init);
        assert xs[j] == MaxOf(init);
      }
    }
  }

  /** Per-frame processing times, kept as count, total and maximum. */
  class ProcessingMetrics {
    var framesProcessed: nat
    var totalProcessingTime: int
    var maxProcessingTime: int
    var lastFFmpegProgress: string
    /** Every recorded processing time, oldest first. */
    ghost var history: seq<int>

    ghost predicate Valid()
      reads this
    {
      framesProcessed == |history|
      && totalProcessingTime == SumOf(history)
      && maxProcessingTime == MaxOf(history)
    }

    constructor ()
      ensures Valid() && history == [] && lastFFmpegProgress == ""
    {
      framesProcessed := 0;
      totalProcessingTime := 0;
      maxProcessingTime := 0;
      lastFFmpegProgress := "";
      history := [];
    }

    /** recordFrameProcessed: one more frame, its time added to the total, the maximum kept. */
    method RecordFrameProcessed(processingTime: int)
      requires Valid()
      modifies this
      ensures Valid()
      ensures history == old(history) + [processingTime]
      ensures lastFFmpegProgress == old(lastFFmpegProgress)
    {
      framesProcessed := framesProcessed + 1;
      totalProcessingTime := totalProcessingTime + processingTime;
      maxProcessingTime := if maxProcessingTime >= processingTime then maxProcessingTime else processingTime;
      history := history + [processingTime];
      assert history[..|history| - 1] == old(history);
    }

    method RecordFFmpegProgress(progress: string)
      modifies this
      ensures lastFFmpegProgress == progress
      ensures framesProcessed == old(framesProcessed) && totalProcessingTime == old(totalProcessingTime)
      ensures maxProcessingTime == old(maxProcessingTime) && history == old(history)
    {
      lastFFmpegProgress := progress;
    }

    /** getAverageProcessingTime: the mean of the recorded times, 0 before the first frame. */
    function AverageProcessingTime(): (avg: real)
      reads this
      requires Valid()
      ensures framesProcessed == 0 ==> avg == 0.0
      ensures framesProcessed > 0 ==> avg * framesProcessed as real == SumOf(history) as real
    {
      if framesProcessed > 0 then totalProcessingTime as real / framesProcessed as real else 0.0
    }
  }

  datatype ProcessingResult = ProcessingResult(success: bool, exitCode: int, framesProcessed: nat,
                                               framesDropped: nat, averageProcessingTime: real,
                                               totalProcessingTime: int)

  /** getFrameDropRate: dropped frames as a percentage of all frames offered, 0 when there were none. */
  function FrameDropRate(r: ProcessingResult): (rate: real)
    ensures 0.0 <= rate <= 100.0
    ensures r.framesDropped == 0 ==> rate == 0.0
    ensures r.framesProcessed == 0 && r.framesDropped > 0 ==> rate == 100.0
    ensures r.framesProcessed + r.framesDropped > 0 ==>
              rate * (r.framesProcessed + r.framesDropped) as real == 100.0 * r.framesDropped as real
  {
    var total := r.framesProcessed + r.framesDropped;
    if total > 0 then
      var share := r.framesDropped as real / total as real;
      assert share * total as real == r.framesDropped as real;
      share * 100.0
    else 0.0
  }

  // ---------------------------------------------------------------------
  // The frame queue
  // ---------------------------------------------------------------------

  /** A queued frame: the image, when it was added, and framesWritten + 1 at that moment. */
  datatype ProcessingFrame = ProcessingFrame(image: Image, timestamp: int, sequenceNumber: int)

  /**
   * CircularFrameBuffer.take as written: the poll's result is returned in
   * every case, so a poll that finds the queue empty yields null even when
   * the end of frames has not been signalled. In this sequential model an
   * empty queue at the poll is a poll that waited its full second.
   */
  function TakeAsWritten(buffer: seq<ProcessingFrame>, endOfFrames: bool): (r: Option<ProcessingFrame>)
    ensures |buffer| > 0 ==> r == Some(buffer[0])
    ensures |buffer| == 0 ==> r.None?
  {
    var polled := if |buffer| > 0 then Some(buffer[0]) else None;
    if polled.None? && endOfFrames && |buffer| == 0 then None
    else polled
  }

  /**
   * The consumer loop stops on a null from take, so as written it stops
   * after one idle second although signalEndOfFrames was never called.
   */
  lemma TakeAsWrittenEndsWithoutSignal()
    ensures exists buffer: seq<ProcessingFrame>, endOfFrames: bool ::
              TakeAsWritten(buffer, endOfFrames).None? && !endOfFrames
  {
    assert TakeAsWritten([], false).None?;
  }

  /** What one take hands the consumer. */
  datatype TakeOutcome = Got(frame: ProcessingFrame) | EndOfStream | KeepWaiting

  /** take as intended: the end of stream only once it was signalled and the queue is drained. */
  function Take(buffer: seq<ProcessingFrame>, endOfFrames: bool): (r: TakeOutcome)
    ensures r.Got? <==> |buffer| > 0
    ensures r.Got? ==> r.frame == buffer[0]
    ensures r.EndOfStream? <==> |buffer| == 0 && endOfFrames
  {
    if |buffer| > 0 then Got(buffer[0])
    else if endOfFrames then EndOfStream
    else KeepWaiting
  }

  /** Graphics2D scaling, assumed to produce an image of the requested size. */
  type Resizer = (Image, nat, nat) -> Image

  ghost predicate ResizesTo(resize: Resizer)
  {
    forall image: Image, w: nat, h: nat :: resize(image, w, h).width == w && resize(image, w, h).height == h
  }

  /** The image as it is encoded: resized first when its size differs from the configured one. */
  function Fit(image: Image, width: nat, height: nat, resize: Resizer): Image
  {
    if image.width != width || image.height != height then resize(image, width, height) else image
  }

  /** The bytes one queued frame becomes. */
  function FrameBytes(frame: ProcessingFrame, width: nat, height: nat, resize: Resizer): seq<bv8>
  {
    RawRgb(Fit(frame.image, width, height, resize))
  }

  /** The bytes of a run of frames, in queue order. */
  function Encoded(frames: seq<ProcessingFrame>, width: nat, height: nat, resize: Resizer): seq<bv8>
  {
    if frames == [] then []
    else Encoded(frames[..|frames| - 1], width, height, resize)
         + FrameBytes(frames[|frames| - 1], width, height, resize)
  }

  /**
   * The encoder's side of each write, by frame number (framesWritten + 1 at
   * the time of the write): the writes that throw an IOException, and the
   * milliseconds each frame took from take to flush.
   */
  datatype EncoderIo = EncoderIo(failedWrites: set<int>, elapsed: map<int, nat>)

  predicate WriteOk(io: EncoderIo, frameNumber: int)
  {
    frameNumber !in io.failedWrites
  }

  function Elapsed(io: EncoderIo, frameNumber: int): nat
  {
    if frameNumber in io.elapsed then io.elapsed[frameNumber] else 0
  }

  /**
   * How many of `count` frames, numbered n0 + 1, n0 + 2, ..., are written
   * before the first write that fails (every write fails on a closed stream).
   */
  function OkPrefix(count: nat, n0: int, open: bool, io: EncoderIo): (k: nat)
    ensures k <= count
    ensures k > 0 ==> open
    ensures forall m :: n0 < m <= n0 + k ==> m !in io.failedWrites
    ensures k < count ==> !(open && WriteOk(io, n0 + k + 1))
    decreases count
  {
    if count == 0 || !(open && WriteOk(io, n0 + 1)) then 0
    else 1 + OkPrefix(count - 1, n0 + 1, open, io)
  }

  /** Frame j of the queue is written exactly when fewer than OkPrefix frames precede it. */
  lemma OkPrefixStep(count: nat, n0: int, open: bool, io: EncoderIo, j: nat)
    requires j < count && j <= OkPrefix(count, n0, open, io)
    ensures (open && WriteOk(io, n0 + j + 1)) <==> j < OkPrefix(count, n0, open, io)
  {
  }

  /** The bytes and times after writing queue[written] are those of the next longer prefix. */
  lemma ConsumeStep(queue: seq<ProcessingFrame>, written: nat, width: nat, height: nat, resize: Resizer,
                    s0: seq<bv8>, n0: int, h0: seq<int>, io: EncoderIo)
    requires written < |queue|
    ensures s0 + Encoded(queue[..written], width, height, resize) + FrameBytes(queue[written], width, height, resize)
         == s0 + Encoded(queue[..written + 1], width, height, resize)
    ensures h0 + Times(n0, written, io) + [Elapsed(io, n0 + written + 1)] == h0 + Times(n0, written + 1, io)
  {
    EncodedSnoc(queue, written, width, height, resize);
    TimesSnoc(n0, written, io);
  }

  lemma EncodedSnoc(frames: seq<ProcessingFrame>, j: nat, width: nat, height: nat, resize: Resizer)
    requires j < |frames|
    ensures Encoded(frames[..j + 1], width, height, resize)
         == Encoded(frames[..j], width, height, resize) + FrameBytes(frames[j], width, height, resize)
  {
    assert frames[..j + 1][..j] == frames[..j];
  }

  /** The processing times recorded for frames n0 + 1 .. n0 + count. */
  function Times(n0: int, count: nat, io: EncoderIo): (r: seq<int>)
    ensures |r| == count
  {
    if count == 0 then [] else Times(n0, count - 1, io) + [Elapsed(io, n0 + count)]
  }

  lemma TimesSnoc(n0: int, count: nat, io: EncoderIo)
    ensures Times(n0, count + 1, io) == Times(n0, count, io) + [Elapsed(io, n0 + count + 1)]
  {
  }

  lemma MulSucc(a: int, n: int)
    ensures a * (n + 1) == a * n + a
  {
  }

  /** Every encoded frame is exactly one raw frame of the configured size. */
  lemma {:induction false} EncodedLength(frames: seq<ProcessingFrame>, width: nat, height: nat, resize: Resizer)
    requires ResizesTo(resize)
    ensures |Encoded(frames, width, height, resize)| == 3 * width * height * |frames|
    decreases |frames|
  {
    if frames != [] {
      var n := |frames| - 1;
      EncodedLength(frames[..n], width, height, resize);
      RawRgbLength(Fit(frames[n].image, width, height, resize));
      MulSucc(3 * width * height, n);
    }
  }

  // ---------------------------------------------------------------------
  // The processor
  // ---------------------------------------------------------------------

  class OptimizedVideoProcessor {
    const ffmpegPath: string
    const metrics: ProcessingMetrics
    var state: ProcessingState
    /** The ArrayBlockingQueue, head first. */
    var buffer: seq<ProcessingFrame>
    var endOfFrames: bool
    /** The consumer task has not finished. */
    var consumerRunning: bool
    var framesWritten: nat
    var framesDropped: nat
    /** frameRate, width, height, codec, preset and useHardwareAcceleration. */
    var settings: EncoderSettings
    /** The argument list the encoder was launched with. */
    var command: seq<string>
    var stdinOpen: bool
    /** Every byte written to the encoder's standard input. */
    var stdin: seq<bv8>

    /**
     * The queue is bounded and the metrics count exactly the written frames.
     * Nothing happens before the processor leaves IDLE.
     */
    ghost predicate Valid()
      reads this, metrics
    {
      metrics.Valid()
      && |buffer| <= BufferCapacity
      && framesWritten == metrics.framesProcessed
      && (state == Idle ==> framesWritten == 0 && buffer == [] && stdin == [] && !stdinOpen && !endOfFrames)
    }

    /** A new processor is idle with the default settings, and its consumer is already waiting. */
    constructor (ffmpegPath: string)
      ensures Valid() && fresh(metrics)
      ensures this.ffmpegPath == ffmpegPath && state == Idle && buffer == [] && consumerRunning
      ensures framesWritten == 0 && framesDropped == 0 && metrics.history == []
      ensures settings == DefaultSettings
    {
      this.ffmpegPath := ffmpegPath;
      metrics := new ProcessingMetrics();
      state := Idle;
      buffer := [];
      endOfFrames := false;
      consumerRunning := true;
      framesWritten := 0;
      framesDropped := 0;
      settings := DefaultSettings;
      command := [];
      stdinOpen := false;
      stdin := [];
    }

    /** configure: only an idle processor takes new settings; otherwise nothing changes. */
    method Configure(requested: EncoderSettings) returns (r: Result<()>)
      requires Valid()
      modifies this
      ensures Valid()
      ensures r.Ok? <==> old(state) == Idle
      ensures settings == (if r.Ok? then requested else old(settings))
      ensures state == old(state) && buffer == old(buffer) && framesWritten == old(framesWritten)
      ensures framesDropped == old(framesDropped) && stdin == old(stdin) && stdinOpen == old(stdinOpen)
      ensures command == old(command) && endOfFrames == old(endOfFrames) && consumerRunning == old(consumerRunning)
    {
      if state != Idle {
        return Err("Cannot configure processor while processing is active");
      }
      settings := requested;
      r := Ok(());
    }

    /**
     * startProcessing: IDLE moves to STARTING or the call is refused; the
     * encoder launch (`launched`) then ends in PROCESSING with a fresh,
     * open input stream, or in ERROR.
     */
    method StartProcessing(outputPath: string, osName: string, launched: bool) returns (r: Result<string>)
      requires Valid()
      modifies this
      ensures Valid() && settings == old(settings)
      ensures old(state) != Idle ==> r.Err? && state == old(state) && stdinOpen == old(stdinOpen)
                                     && command == old(command)
      ensures old(state) == Idle && launched ==>
                r == Ok(outputPath) && state == Processing && stdinOpen && stdin == []
                && command == FFmpegCommand(ffmpegPath, settings.width, settings.height, settings.frameRate,
                                            settings.codec, settings.preset, settings.useHardwareAcceleration,
                                            osName, outputPath)
      ensures old(state) == Idle && !launched ==> r.Err? && state == Error && !stdinOpen
      ensures buffer == old(buffer) && framesWritten == old(framesWritten) && framesDropped == old(framesDropped)
      ensures stdin == old(stdin) && endOfFrames == old(endOfFrames) && consumerRunning == old(consumerRunning)
    {
      if state != Idle {
        return Err("Video processor is already active");
      }
      state := Starting;
      if !launched {
        state := Error;
        return Err("Failed to start video processing");
      }
      command := BuildFFmpegCommand(ffmpegPath, settings.width, settings.height, settings.frameRate,
                                    settings.codec, settings.preset, settings.useHardwareAcceleration,
                                    osName, outputPath);
      stdin := [];
      stdinOpen := true;
      state := Processing;
      r := Ok(outputPath);
    }

    /**
     * addFrame: never blocks. Outside PROCESSING it refuses and changes
     * nothing; with the queue full it drops the frame and counts the drop;
     * otherwise the frame joins the tail numbered framesWritten + 1.
     */
    method AddFrame(image: Image, now: int) returns (added: bool)
      requires Valid()
      modifies this
      ensures Valid() && settings == old(settings)
      ensures added <==> old(state) == Processing && |old(buffer)| < BufferCapacity
      ensures added ==> buffer == old(buffer) + [ProcessingFrame(image, now, old(framesWritten) + 1)]
                        && framesDropped == old(framesDropped)
      ensures !added ==> buffer == old(buffer)
      ensures old(state) == Processing && !added ==> framesDropped == old(framesDropped) + 1
      ensures old(state) != Processing ==> framesDropped == old(framesDropped)
      ensures state == old(state) && framesWritten == old(framesWritten) && stdin == old(stdin)
      ensures stdinOpen == old(stdinOpen) && command == old(command) && endOfFrames == old(endOfFrames)
      ensures consumerRunning == old(consumerRunning)
    {
      if state != Processing {
        return false;
      }
      var frame := ProcessingFrame(image, now, framesWritten + 1);
      if |buffer| < BufferCapacity {
        buffer := buffer + [frame];
        added := true;
      } else {
        framesDropped := framesDropped + 1;
        // every tenth drop calls optimizeBufferForRecovery, which does nothing
        added := false;
      }
    }

    /**
     * processFrameToFFmpeg: resize if needed, pack, write and flush; only
     * then is framesWritten incremented and the time recorded. A failed
     * write changes nothing.
     */
    method ProcessFrameToFFmpeg(frame: ProcessingFrame, resize: Resizer, io: EncoderIo) returns (ok: bool)
      requires Valid() && ResizesTo(resize)
      modifies this, metrics
      ensures Valid() && settings == old(settings)
      ensures ok == (stdinOpen && WriteOk(io, old(framesWritten) + 1))
      ensures ok ==> stdin == old(stdin) + FrameBytes(frame, settings.width, settings.height, resize)
                     && framesWritten == old(framesWritten) + 1
                     && metrics.history == old(metrics.history) + [Elapsed(io, old(framesWritten) + 1)]
      ensures !ok ==> stdin == old(stdin) && framesWritten == old(framesWritten)
                      && metrics.history == old(metrics.history)
      ensures state == old(state) && buffer == old(buffer) && framesDropped == old(framesDropped)
      ensures stdinOpen == old(stdinOpen) && command == old(command) && endOfFrames == old(endOfFrames)
      ensures consumerRunning == old(consumerRunning)
    {
      var image := frame.image;
      if image.width != settings.width || image.height != settings.height {
        image := resize(image, settings.width, settings.height);
      }
      var raw := ConvertToRawRgb(image);
      var frameNumber := framesWritten + 1;
      if !(stdinOpen && WriteOk(io, frameNumber)) {
        return false;
      }
      stdin := stdin + raw[..];
      framesWritten := frameNumber;
      metrics.RecordFrameProcessed(Elapsed(io, frameNumber));
      ok := true;
    }

    /**
     * One turn of the consumer loop with a frame at the head of the queue:
     * the frame is taken and written as frame n0 + written + 1; a failed
     * write sets ERROR and ends the consumer.
     */
    method ConsumeNext(resize: Resizer, io: EncoderIo, ghost queue: seq<ProcessingFrame>, ghost n0: int,
                       ghost s0: seq<bv8>, ghost h0: seq<int>, ghost written: nat) returns (wrote: bool)
      requires Valid() && consumerRunning && ResizesTo(resize)
      requires written < |queue| && buffer == queue[written..]
      requires framesWritten == n0 + written
      requires stdin == s0 + Encoded(queue[..written], settings.width, settings.height, resize)
      requires metrics.history == h0 + Times(n0, written, io)
      modifies this, metrics
      ensures Valid() && settings == old(settings) && buffer == queue[written + 1..]
      ensures wrote == (stdinOpen && WriteOk(io, n0 + written + 1))
      ensures wrote ==> framesWritten == n0 + written + 1 && state == old(state) && consumerRunning
                        && stdin == s0 + Encoded(queue[..written + 1], settings.width, settings.height, resize)
                        && metrics.history == h0 + Times(n0, written + 1, io)
      ensures !wrote ==> framesWritten == old(framesWritten) && state == Error && !consumerRunning
                         && stdin == old(stdin) && metrics.history == old(metrics.history)
      ensures framesDropped == old(framesDropped) && stdinOpen == old(stdinOpen)
      ensures command == old(command) && endOfFrames == old(endOfFrames)
    {
      var frame := buffer[0];
      assert frame == queue[written];
      assert queue[written..][1..] == queue[written + 1..];
      buffer := buffer[1..];
      ConsumeStep(queue, written, settings.width, settings.height, resize, s0, n0, h0, io);
      wrote := ProcessFrameToFFmpeg(frame, resize, io);
      if !wrote {
        state := Error;
        consumerRunning := false;
      }
    }

    /**
     * The consumer loop: frames leave the queue in FIFO order and are
     * written until a write fails (ERROR, the loop ends), the end of the
     * stream is reached, or the queue is empty with no end signalled.
     */
    method RunPipeline(resize: Resizer, io: EncoderIo)
      requires Valid() && consumerRunning && ResizesTo(resize)
      modifies this, metrics
      ensures Valid() && settings == old(settings)
      ensures var k := OkPrefix(|old(buffer)|, old(framesWritten), old(stdinOpen), io);
              framesWritten == old(framesWritten) + k
              && stdin == old(stdin) + Encoded(old(buffer)[..k], settings.width, settings.height, resize)
              && metrics.history == old(metrics.history) + Times(old(framesWritten), k, io)
              && (k < |old(buffer)| ==> state == Error && !consumerRunning && buffer == old(buffer)[k + 1..])
              && (k == |old(buffer)| ==> state == old(state) && buffer == [] && consumerRunning == !endOfFrames)
      ensures framesDropped == old(framesDropped) && stdinOpen == old(stdinOpen)
      ensures command == old(command) && endOfFrames == old(endOfFrames)
    {
      ghost var queue := buffer;
      ghost var n0 := framesWritten;
      ghost var s0 := stdin;
      ghost var h0 := metrics.history;
      ghost var k := OkPrefix(|queue|, n0, stdinOpen, io);
      ghost var written := 0;
      while consumerRunning
        invariant Valid() && settings == old(settings)
        invariant 0 <= written <= k && framesWritten == n0 + written
        invariant stdin == s0 + Encoded(queue[..written], settings.width, settings.height, resize)
        invariant metrics.history == h0 + Times(n0, written, io)
        invariant consumerRunning ==> buffer == queue[written..] && state == old(state)
        invariant !consumerRunning ==>
                    written == k
                    && ((k < |queue| && buffer == queue[k + 1..] && state == Error)
                        || (k == |queue| && buffer == [] && state == old(state) && endOfFrames))
        invariant framesDropped == old(framesDropped) && stdinOpen == old(stdinOpen)
        invariant command == old(command) && endOfFrames == old(endOfFrames)
        decreases |buffer|, consumerRunning
      {
        var next := Take(buffer, endOfFrames);
        if next.KeepWaiting? {
          break;
        } else if next.EndOfStream? {
          consumerRunning := false;
        } else {
          OkPrefixStep(|queue|, n0, stdinOpen, io, written);
          var wrote := ConsumeNext(resize, io, queue, n0, s0, h0, written);
          if wrote {
            written := written + 1;
          }
        }
      }
    }

    /**
     * finishProcessing: PROCESSING moves to FINISHING or the call is
     * refused. The end of frames is signalled, the consumer drains the
     * queue, the input stream is closed, and the encoder's exit is awaited:
     * an exit code (zero or not) ends in COMPLETED with success == (code == 0);
     * an interrupted wait (no code) ends in ERROR.
     */
    method FinishProcessing(resize: Resizer, io: EncoderIo, exitCode: Option<int>) returns (r: Result<ProcessingResult>)
      requires Valid() && ResizesTo(resize)
      modifies this, metrics
      ensures Valid() && settings == old(settings)
      ensures old(state) != Processing ==>
                r.Err? && state == old(state) && buffer == old(buffer) && stdin == old(stdin)
                && stdinOpen == old(stdinOpen) && framesWritten == old(framesWritten)
      ensures old(state) == Processing ==> endOfFrames && !stdinOpen
      ensures old(state) == Processing && old(consumerRunning) ==>
                var k := OkPrefix(|old(buffer)|, old(framesWritten), old(stdinOpen), io);
                framesWritten == old(framesWritten) + k && !consumerRunning
                && stdin == old(stdin) + Encoded(old(buffer)[..k], settings.width, settings.height, resize)
                && metrics.history == old(metrics.history) + Times(old(framesWritten), k, io)
                && buffer == (if k < |old(buffer)| then old(buffer)[k + 1..] else [])
      ensures old(state) == Processing && !old(consumerRunning) ==>
                framesWritten == old(framesWritten) && buffer == old(buffer) && stdin == old(stdin)
                && metrics.history == old(metrics.history)
      ensures old(state) == Processing && exitCode.None? ==> r.Err? && state == Error
      ensures old(state) == Processing && exitCode.Some? ==>
                state == Completed
                && r == Ok(ProcessingResult(exitCode.value == 0, exitCode.value, framesWritten, framesDropped,
                                            metrics.AverageProcessingTime(), metrics.totalProcessingTime))
      ensures framesDropped == old(framesDropped) && command == old(command)
    {
      if state != Processing {
        return Err("Cannot finish processing, invalid state");
      }
      state := Finishing;
      endOfFrames := true;
      if consumerRunning {
        RunPipeline(resize, io);
      }
      stdinOpen := false;
      if exitCode.None? {
        state := Error;
        return Err("Video processing completion failed");
      }
      var code := exitCode.value;
      var result := ProcessingResult(code == 0, code, framesWritten, framesDropped,
                                     metrics.AverageProcessingTime(), metrics.totalProcessingTime);
      state := Completed;
      r := Ok(result);
    }

    /** parseFFmpegProgress: a stderr line with "frame=" becomes the last progress report. */
    method ParseFFmpegProgress(line: string)
      modifies metrics
      ensures metrics.lastFFmpegProgress == (if Contains(line, "frame=") then line else old(metrics.lastFFmpegProgress))
      ensures metrics.history == old(metrics.history) && metrics.framesProcessed == old(metrics.framesProcessed)
      ensures metrics.totalProcessingTime == old(metrics.totalProcessingTime)
      ensures metrics.maxProcessingTime == old(metrics.maxProcessingTime)
    {
      if Contains(line, "frame=") {
        metrics.RecordFFmpegProgress(line);
      }
    }

    /** shutdown: SHUTTING_DOWN, input stream closed, consumer stopped, queue cleared. */
    method Shutdown()
      requires Valid()
      modifies this
      ensures Valid() && settings == old(settings)
      ensures state == ShuttingDown && buffer == [] && !stdinOpen && !consumerRunning
      ensures framesWritten == old(framesWritten) && framesDropped == old(framesDropped)
      ensures stdin == old(stdin) && command == old(command) && endOfFrames == old(endOfFrames)
    {
      state := ShuttingDown;
      stdinOpen := false;
      consumerRunning := false;
      buffer := [];
    }
  }
}
