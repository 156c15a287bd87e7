/** What every run of one relay direction keeps: streams, frames, capacity, progress. */
module RelayProofs {
  import opened Bytes
  import opened Codec
  import opened Os
  import opened Relay

  // ----- one system call, by phase -----

  /** The part of complete frames not yet written. */
  function Unsent(p: Phase): seq<byte>
    requires p.Head? ==> p.done < MSG_HEADER_LEN
  {
    match p
    case Head(hdr, done, body) => hdr[done..] + body
    case Drain(_, body, _, _) => body
    case _ => []
  }

  /** The call is not a resumed header write with a nonzero byte among those it should send. */
  predicate CleanStep(c: Cfg, d: Dir, io: Io)
    requires WF(c, d)
  {
    d.phase.Head? && d.phase.done > 0 ==>
      var r := Write(io, MSG_HEADER_LEN - d.phase.done);
      r.Put? ==> AllZero(d.phase.hdr[d.phase.done..d.phase.done + r.n])
  }

  /** The cases of a header read. */
  lemma HeaderStepCases(c: Cfg, d: Dir, io: Io) returns (b: seq<byte>)
    requires WF(c, d) && d.phase.Await?
    ensures var d' := Step(c, d, io);
            && d'.output == d.output && d'.input == d.input + b && |b| <= MSG_HEADER_LEN
            && (b == [] ==> d'.phase == d.phase)
            && (b != [] ==> d.phase.n == 0 && ((d'.phase.Await? && d'.phase.n == |b|) || d'.phase == Fill(b, [])))
  {
    var r := Read(io, d.open, MSG_HEADER_LEN - d.phase.n);
    b := if r.Got? then r.data else [];
    assert Zeros(0) + b == b;
    assert d.input + [] == d.input;
  }

  /** The cases of a body splice. */
  lemma FillStepCases(c: Cfg, d: Dir, io: Io) returns (b: seq<byte>)
    requires WF(c, d) && d.phase.Fill?
    ensures var d' := Step(c, d, io);
            var body' := d.phase.body + b;
            && d'.output == d.output && d'.input == d.input + b
            && MSG_HEADER_LEN + |body'| <= MsgLength(c.endian, d.phase.hdr)
            && d'.phase == if MSG_HEADER_LEN + |body'| == MsgLength(c.endian, d.phase.hdr)
                           then Head(d.phase.hdr, 0, body') else Fill(d.phase.hdr, body')
  {
    var Fill(hdr, body) := d.phase;
    var r := SpliceIn(io, d.open, MsgLength(c.endian, hdr) - MSG_HEADER_LEN - |body|, c.cap - |body|);
    b := if r.Got? then r.data else [];
    assert body + [] == body && d.input + [] == d.input;
  }

  function Written(d: Dir, io: Io): nat
    requires d.phase.Head? && d.phase.done < MSG_HEADER_LEN
  {
    var r := Write(io, MSG_HEADER_LEN - d.phase.done);
    if r.Put? then r.n else 0
  }

  /** The cases of a header write.  `slack` is what was sent before the header's last piece. */
  lemma HeadStepCases(c: Cfg, d: Dir, io: Io)
    requires WF(c, d) && d.phase.Head?
    ensures var Head(hdr, done, body) := d.phase;
            var d', n := WriteHeader(c, d, io), Written(d, io);
            && n <= MSG_HEADER_LEN - done && d'.input == d.input
            && d'.output == d.output + HeaderBuffer(hdr, done)[..n]
            && d'.phase == if n < MSG_HEADER_LEN - done then Head(hdr, done + n, body)
                           else Drain(hdr, body, done, MSG_HEADER_LEN)
  {
    assert d.output + [] == d.output;
  }

  /** The cases of a body splice out. */
  lemma DrainStepCases(c: Cfg, d: Dir, io: Io) returns (n: nat)
    requires WF(c, d) && d.phase.Drain?
    ensures var Drain(hdr, body, slack, sent) := d.phase;
            var d' := DrainPipe(c, d, io);
            && n == (if io.Put? then Min(io.n, |body|) else 0)
            && d'.input == d.input && d'.output == d.output + body[..n]
            && d'.phase == if |body| - n + slack == 0 then Await(0, 0) else Drain(hdr, body[n..], slack, sent + n)
  {
    var Drain(hdr, body, slack, sent) := d.phase;
    var r := SpliceOut(io, |body| + slack, |body|);
    n := if r.Put? then r.n else 0;
    assert d.output + [] == d.output && body[0..] == body;
  }

  lemma DrainStepFramed(c: Cfg, d: Dir, io: Io)
    requires WF(c, d) && d.phase.Drain?
    ensures var d' := Step(c, d, io);
            d'.input == d.input && d'.output + Unsent(d'.phase) == d.output + d.phase.body
  {
    var n := DrainStepCases(c, d, io);
    var body := d.phase.body;
    assert d.output + body == (d.output + body[..n]) + body[n..];
  }

  // ----- conservation, in every run -----

  ghost predicate Balanced(c: Cfg, d: Dir)
    requires WF(c, d)
  {
    |d.input| == |d.output| + Held(d.phase)
  }

  lemma StepBalanced(c: Cfg, d: Dir, io: Io)
    requires WF(c, d) && Balanced(c, d)
    ensures Balanced(c, Step(c, d, io))
    ensures d.input <= Step(c, d, io).input && d.output <= Step(c, d, io).output
  {
    match d.phase
    case Await(_, _) => var _ := HeaderStepCases(c, d, io);
    case Fill(_, _) => var _ := FillStepCases(c, d, io);
    case Head(_, _, _) => HeadStepCases(c, d, io);
    case Drain(_, _, _, _) => var _ := DrainStepCases(c, d, io);
  }

  /** Bytes read are bytes written plus bytes held, for any schedule of short transfers and errors. */
  lemma {:induction false} BytesConserved(c: Cfg, d: Dir, ios: seq<Io>)
    requires WF(c, d) && Balanced(c, d)
    ensures Balanced(c, Run(c, d, ios))
    ensures d.input <= Run(c, d, ios).input && d.output <= Run(c, d, ios).output
  {
    if ios != [] {
      var before, io := ios[..|ios| - 1], ios[|ios| - 1];
      BytesConserved(c, d, before);
      StepBalanced(c, Run(c, d, before), io);
    }
  }

  lemma RunBalanced(c: Cfg, ios: seq<Io>)
    ensures Balanced(c, Run(c, START, ios))
  {
    BytesConserved(c, START, ios);
  }

  // ----- frames on the input side, in every run -----

  /** The bytes read after the last complete valid frame. */
  ghost predicate InputFramed(c: Cfg, d: Dir)
    requires WF(c, d)
  {
    var whole := Flatten(Frames(c.endian, d.input));
    match d.phase
    case Await(n, _) => whole <= d.input && |d.input| == |whole| + n
    case Fill(hdr, body) => d.input == whole + hdr + body
    case Head(hdr, _, _) => d.input == whole && LastIs(Frames(c.endian, d.input), MsgLength(c.endian, hdr))
    case Drain(hdr, _, _, _) => d.input == whole && LastIs(Frames(c.endian, d.input), MsgLength(c.endian, hdr))
  }

  /** The frame in flight is the last one received. */
  predicate LastIs(fs: seq<seq<byte>>, len: int) {
    fs != [] && |fs[|fs| - 1]| == len
  }

  lemma StartFramed(c: Cfg)
    ensures InputFramed(c, START) && Frames(c.endian, START.input) == []
  {
  }

  /** Reading on past whole frames: the frames found are the same plus those of the new bytes. */
  lemma FramesAfter(e: int, s: seq<byte>, tail: seq<byte>)
    requires s == Flatten(Frames(e, s))
    ensures Frames(e, s + tail) == Frames(e, s) + Frames(e, tail)
    ensures Flatten(Frames(e, s + tail)) == s + Flatten(Frames(e, tail))
  {
    FramesAreAPrefix(e, s);
    FramesOfFlatten(e, Frames(e, s), tail);
    FlattenAppend(Frames(e, s), Frames(e, tail));
  }

  /** Header bytes alone never complete a frame. */
  lemma FramesAfterHeader(e: int, s: seq<byte>, b: seq<byte>)
    requires s == Flatten(Frames(e, s)) && |b| <= MSG_HEADER_LEN
    ensures Flatten(Frames(e, s + b)) == s && Frames(e, s + b) == Frames(e, s)
  {
    FramesAfter(e, s, b);
    if |b| == MSG_HEADER_LEN {
      assert b[..MSG_HEADER_LEN] == b;
    }
    assert Frames(e, b) == [];
  }

  /** A frame counts once its last body byte is in, and not before. */
  lemma FramesAfterBody(e: int, s: seq<byte>, hdr: HeaderBytes, body: seq<byte>)
    requires s == Flatten(Frames(e, s))
    requires MSG_HEADER_LEN + |body| <= MsgLength(e, hdr) && body != []
    ensures MSG_HEADER_LEN + |body| < MsgLength(e, hdr) ==> Frames(e, s + (hdr + body)) == Frames(e, s)
    ensures MSG_HEADER_LEN + |body| == MsgLength(e, hdr) ==>
              && Frames(e, s + (hdr + body)) == Frames(e, s) + [hdr + body]
              && Flatten(Frames(e, s + (hdr + body))) == s + (hdr + body)
  {
    var f := hdr + body;
    FramesAfter(e, s, f);
    assert f[..MSG_HEADER_LEN] == hdr;
    if IsFrame(e, f) {
      FrameFirst(e, f, []);
      assert f + [] == f && Frames(e, []) == [];
      assert Flatten([f]) == f + Flatten([f][1..]);
    } else {
      assert Frames(e, f) == [];
    }
  }

  lemma HeaderStepFramed(c: Cfg, d: Dir, io: Io)
    requires WF(c, d) && d.phase.Await? && InputFramed(c, d)
    ensures InputFramed(c, Step(c, d, io))
    ensures Frames(c.endian, Step(c, d, io).input) == Frames(c.endian, d.input)
  {
    var b := HeaderStepCases(c, d, io);
    if b == [] {
      assert d.input + [] == d.input;
    } else {
      FramesAfterHeader(c.endian, d.input, b);
      assert d.input + b + [] == d.input + b;
    }
  }

  lemma Regroup(w: seq<byte>, x: seq<byte>, y: seq<byte>, z: seq<byte>)
    ensures w + x + y + z == w + (x + (y + z)) == w + x + (y + z)
  {
  }

  lemma FillFramed(c: Cfg, d: Dir, io: Io)
    requires WF(c, d) && d.phase.Fill? && InputFramed(c, d)
    ensures var d' := Step(c, d, io);
            && InputFramed(c, d')
            && if d'.phase.Head?
               then Frames(c.endian, d'.input) == Frames(c.endian, d.input) + [d'.phase.hdr + d'.phase.body]
                    && Flatten(Frames(c.endian, d'.input)) == Flatten(Frames(c.endian, d.input)) + (d'.phase.hdr + d'.phase.body)
               else Frames(c.endian, d'.input) == Frames(c.endian, d.input)
  {
    var b := FillStepCases(c, d, io);
    var Fill(hdr, body) := d.phase;
    var whole := Flatten(Frames(c.endian, d.input));
    Regroup(whole, hdr, body, b);
    FramesGrow(c.endian, d.input, whole, hdr, body, b, d.input + b);
  }

  lemma FramesGrow(e: int, s: seq<byte>, whole: seq<byte>, hdr: HeaderBytes, body: seq<byte>, b: seq<byte>, s': seq<byte>)
    requires whole == Flatten(Frames(e, s)) && s' == s + b == whole + (hdr + (body + b))
    requires MSG_HEADER_LEN + |body + b| <= MsgLength(e, hdr) && MSG_HEADER_LEN + |body| < MsgLength(e, hdr)
    ensures if MSG_HEADER_LEN + |body + b| < MsgLength(e, hdr)
            then Frames(e, s') == Frames(e, s)
            else Frames(e, s') == Frames(e, s) + [hdr + (body + b)] && Flatten(Frames(e, s')) == whole + (hdr + (body + b))
  {
    if b == [] {
      assert s' == s;
    } else {
      WholeIsFramed(e, s);
      FramesAfterBody(e, whole, hdr, body + b);
    }
  }

  lemma WholeIsFramed(e: int, s: seq<byte>)
    ensures Frames(e, Flatten(Frames(e, s))) == Frames(e, s)
  {
    FramesAreAPrefix(e, s);
    FramesOfFlatten(e, Frames(e, s), []);
    assert Flatten(Frames(e, s)) + [] == Flatten(Frames(e, s));
    assert Frames(e, []) == [] && Frames(e, s) + [] == Frames(e, s);
  }

  lemma StepFramed(c: Cfg, d: Dir, io: Io)
    requires WF(c, d) && InputFramed(c, d)
    ensures InputFramed(c, Step(c, d, io))
  {
    match d.phase
    case Await(_, _) => HeaderStepFramed(c, d, io);
    case Fill(_, _) => FillFramed(c, d, io);
    case Head(_, _, _) =>
    case Drain(_, _, _, _) =>
  }

  // ----- the output side: exactly when the header writes are clean -----

  /** Everything written is whole frames, front first. */
  ghost predicate OutputFramed(c: Cfg, d: Dir)
    requires WF(c, d)
  {
    d.output + Unsent(d.phase) == Flatten(Frames(c.endian, d.input))
  }

  predicate CleanRun(c: Cfg, d: Dir, ios: seq<Io>)
    requires WF(c, d)
  {
    ios != [] ==>
      var before := ios[..|ios| - 1];
      CleanRun(c, d, before) && CleanStep(c, Run(c, d, before), ios[|ios| - 1])
  }

  /** One header write of `n` bytes into a correct stream: right bytes if and only if clean. */
  lemma HeaderWrite(output: seq<byte>, input: seq<byte>, hdr: HeaderBytes, done: nat, n: nat, rest: seq<byte>)
    requires done < MSG_HEADER_LEN && done + n <= MSG_HEADER_LEN
    requires output + (hdr[done..done + n] + rest) <= input
    ensures var output' := output + HeaderBuffer(hdr, done)[..n];
            if done == 0 || AllZero(hdr[done..done + n])
            then output' + rest == output + (hdr[done..done + n] + rest)
            else Diverged(output', input)
  {
    var buf, due := HeaderBuffer(hdr, done)[..n], hdr[done..done + n];
    if done == 0 {
      assert buf == due;
    } else {
      ResumeSendsDueBytesIffZero(HeaderBuffer(hdr, done), hdr, done, n);
    }
    if buf != due {
      var i :| 0 <= i < n && buf[i] != due[i];
      var at := |output| + i;
      assert (output + buf)[at] == buf[i];
      assert input[at] == (output + (due + rest))[at] == (due + rest)[i] == due[i];
    }
  }

  /** The output holds a byte that is not the one read at its place. */
  ghost predicate Diverged(output: seq<byte>, input: seq<byte>) {
    exists at :: 0 <= at < |output| && at < |input| && output[at] != input[at]
  }

  lemma DivergedStays(output: seq<byte>, input: seq<byte>, output': seq<byte>, input': seq<byte>)
    requires Diverged(output, input) && output <= output' && input <= input'
    ensures Diverged(output', input') && !(output' <= input')
  {
    var at :| 0 <= at < |output| && at < |input| && output[at] != input[at];
    assert output'[at] == output[at] && input'[at] == input[at];
  }

  lemma SplitTail(s: seq<byte>, a: nat, b: nat, t: seq<byte>)
    requires a <= b <= |s|
    ensures s[a..] + t == s[a..b] + (s[b..] + t)
  {
    assert s[a..] == s[a..b] + s[b..];
  }

  lemma UnsentAfter(c: Cfg, d: Dir, io: Io)
    requires WF(c, d) && d.phase.Head?
    ensures Unsent(WriteHeader(c, d, io).phase) == d.phase.hdr[d.phase.done + Written(d, io)..] + d.phase.body
  {
    HeadStepCases(c, d, io);
    if d.phase.done + Written(d, io) == MSG_HEADER_LEN {
      assert d.phase.hdr[MSG_HEADER_LEN..] == [];
    }
  }

  lemma DueFirst(output: seq<byte>, input: seq<byte>, hdr: HeaderBytes, done: nat, n: nat, body: seq<byte>)
    requires done + n <= MSG_HEADER_LEN && output + (hdr[done..] + body) <= input
    ensures output + (hdr[done..done + n] + (hdr[done + n..] + body)) <= input
    ensures output + (hdr[done..done + n] + (hdr[done + n..] + body)) == output + (hdr[done..] + body)
  {
    SplitTail(hdr, done, done + n, body);
  }

  lemma HeadKeepsStream(c: Cfg, d: Dir, io: Io)
    requires WF(c, d) && d.phase.Head? && d.output + Unsent(d.phase) <= d.input
    ensures var d' := WriteHeader(c, d, io);
            && d'.input == d.input
            && if CleanStep(c, d, io) then d'.output + Unsent(d'.phase) == d.output + Unsent(d.phase)
               else Diverged(d'.output, d'.input)
  {
    var Head(hdr, done, body) := d.phase;
    var n := Written(d, io);
    HeadStepCases(c, d, io);
    UnsentAfter(c, d, io);
    DueFirst(d.output, d.input, hdr, done, n, body);
    HeaderWrite(d.output, d.input, hdr, done, n, hdr[done + n..] + body);
    CleanIff(c, d, io);
  }

  lemma CleanIff(c: Cfg, d: Dir, io: Io)
    requires WF(c, d) && d.phase.Head?
    ensures var Head(hdr, done, _) := d.phase;
            CleanStep(c, d, io) <==> done == 0 || AllZero(hdr[done..done + Written(d, io)])
  {
  }

  lemma HeadFramed(c: Cfg, d: Dir, io: Io)
    requires WF(c, d) && d.phase.Head? && OutputFramed(c, d)
    ensures var d' := WriteHeader(c, d, io);
            if CleanStep(c, d, io) then OutputFramed(c, d') else Diverged(d'.output, d'.input)
  {
    FramesAreAPrefix(c.endian, d.input);
    HeadKeepsStream(c, d, io);
  }

  lemma CleanStepFramed(c: Cfg, d: Dir, io: Io)
    requires WF(c, d) && InputFramed(c, d) && OutputFramed(c, d) && CleanStep(c, d, io)
    ensures OutputFramed(c, Step(c, d, io))
  {
    match d.phase
    case Await(_, _) => ReadKeepsOutput(c, d, io);
    case Fill(_, _) => ReadKeepsOutput(c, d, io);
    case Head(_, _, _) =>
      HeadFramed(c, d, io);
    case Drain(_, _, _, _) => DrainStepFramed(c, d, io);
  }

  lemma ReadKeepsOutput(c: Cfg, d: Dir, io: Io)
    requires WF(c, d) && (d.phase.Await? || d.phase.Fill?) && InputFramed(c, d) && OutputFramed(c, d)
    ensures OutputFramed(c, Step(c, d, io))
  {
    assert d.output == d.output + [];
    var d' := Step(c, d, io);
    if d.phase.Await? {
      HeaderStepFramed(c, d, io);
      var _ := HeaderStepCases(c, d, io);
    } else {
      FillFramed(c, d, io);
      var b := FillStepCases(c, d, io);
      assert d.phase.hdr[0..] == d.phase.hdr;
    }
    assert d'.output + [] == d'.output;
  }

  lemma {:induction false} RunFramed(c: Cfg, ios: seq<Io>)
    ensures InputFramed(c, Run(c, START, ios))
    ensures CleanRun(c, START, ios) ==> OutputFramed(c, Run(c, START, ios))
  {
    if ios == [] {
      StartFramed(c);
    } else {
      var before, io := ios[..|ios| - 1], ios[|ios| - 1];
      RunFramed(c, before);
      StepFramed(c, Run(c, START, before), io);
      if CleanRun(c, START, ios) {
        CleanStepFramed(c, Run(c, START, before), io);
      }
    }
  }

  /** The output and what is still to be sent of the last frame received are the complete valid frames of the input. */
  ghost predicate StoredAndForwarded(c: Cfg, d: Dir)
    requires WF(c, d)
  {
    var fs := Frames(c.endian, d.input);
    && d.output + Unsent(d.phase) == Flatten(fs) <= d.input
    && (Unsent(d.phase) != [] ==> fs != [] && Flatten(fs[..|fs| - 1]) <= d.output)
  }

  /** Store and forward: in a clean run no byte of an unfinished or refused frame is ever written. */
  lemma StoreAndForward(c: Cfg, ios: seq<Io>)
    requires CleanRun(c, START, ios)
    ensures StoredAndForwarded(c, Run(c, START, ios))
  {
    RunFramed(c, ios);
    var d := Run(c, START, ios);
    FramesAreAPrefix(c.endian, d.input);
    if Unsent(d.phase) != [] {
      LastUnsent(Frames(c.endian, d.input), d.output, Unsent(d.phase));
    }
  }

  lemma LastUnsent(fs: seq<seq<byte>>, output: seq<byte>, unsent: seq<byte>)
    requires fs != [] && output + unsent == Flatten(fs) && |unsent| <= |fs[|fs| - 1]|
    ensures Flatten(fs[..|fs| - 1]) <= output
  {
    FlattenLast(fs);
    LongerFront(output, unsent, Flatten(fs[..|fs| - 1]), fs[|fs| - 1]);
  }

  lemma FlattenLast(fs: seq<seq<byte>>)
    requires fs != []
    ensures Flatten(fs) == Flatten(fs[..|fs| - 1]) + fs[|fs| - 1]
  {
    var init, last := fs[..|fs| - 1], fs[|fs| - 1];
    FlattenAppend(init, [last]);
    assert Flatten([last]) == last + Flatten([last][1..]) == last;
    assert fs == init + [last];
  }

  lemma LongerFront(a: seq<byte>, b: seq<byte>, x: seq<byte>, y: seq<byte>)
    requires a + b == x + y && |b| <= |y|
    ensures x <= a
  {
    assert |x| <= |a|;
    assert (a + b)[..|x|] == a[..|x|] && (x + y)[..|x|] == x;
  }

  lemma {:induction false} DirtyRunDiverges(c: Cfg, ios: seq<Io>)
    requires !CleanRun(c, START, ios)
    ensures Diverged(Run(c, START, ios).output, Run(c, START, ios).input)
  {
    var before, io := ios[..|ios| - 1], ios[|ios| - 1];
    var d, d' := Run(c, START, before), Run(c, START, ios);
    if CleanRun(c, START, before) {
      RunFramed(c, before);
      HeadFramed(c, d, io);
    } else {
      DirtyRunDiverges(c, before);
      RunBalanced(c, before);
      StepBalanced(c, d, io);
      DivergedStays(d.output, d.input, d'.output, d'.input);
    }
  }

  /** The peer's stream is a prefix of the source's exactly in the clean runs. */
  lemma StreamCorrectIffClean(c: Cfg, ios: seq<Io>)
    ensures Run(c, START, ios).output <= Run(c, START, ios).input <==> CleanRun(c, START, ios)
  {
    if CleanRun(c, START, ios) {
      StoreAndForward(c, ios);
    } else {
      DirtyRunDiverges(c, ios);
      var d := Run(c, START, ios);
      DivergedStays(d.output, d.input, d.output, d.input);
    }
  }

  /** No header write of the run takes less than the whole header and more than nothing. */
  predicate WholeHeaders(c: Cfg, ios: seq<Io>) {
    ios != [] ==>
      var d := Run(c, START, ios[..|ios| - 1]);
      WholeHeaders(c, ios[..|ios| - 1]) && (d.phase.Head? ==> Written(d, ios[|ios| - 1]) in {0, MSG_HEADER_LEN})
  }

  /** No header was sent in pieces: `recv_bytes` counts exactly the pipe while a body is sent. */
  predicate Unsplit(p: Phase) {
    (p.Head? ==> p.done == 0) && (p.Drain? ==> p.slack == 0)
  }

  /** A split header leaves its mark for good. */
  lemma SplitStays(c: Cfg, d: Dir, io: Io)
    requires WF(c, d)
    ensures Unsplit(Step(c, d, io).phase) <==>
              Unsplit(d.phase) && (d.phase.Head? ==> Written(d, io) in {0, MSG_HEADER_LEN})
  {
    if d.phase.Head? {
      HeadStepCases(c, d, io);
    }
  }

  /** The mark is there exactly when some header write was neither whole nor empty; without one a run is clean. */
  lemma {:induction false} WholeHeadersIff(c: Cfg, ios: seq<Io>)
    ensures WholeHeaders(c, ios) <==> Unsplit(Run(c, START, ios).phase)
    ensures WholeHeaders(c, ios) ==> CleanRun(c, START, ios)
  {
    if ios != [] {
      var before, io := ios[..|ios| - 1], ios[|ios| - 1];
      WholeHeadersIff(c, before);
      SplitStays(c, Run(c, START, before), io);
    }
  }

  // ----- a header sent in pieces -----

  /** With slack the direction never clears: no further byte is read, and only this body can leave. */
  lemma {:induction false} ResumedHeaderWedges(c: Cfg, d: Dir, ios: seq<Io>)
    requires WF(c, d) && d.phase.Drain? && d.phase.slack > 0
    ensures var d' := Run(c, d, ios);
            && d'.phase.Drain? && d'.phase.slack == d.phase.slack && d'.phase.hdr == d.phase.hdr
            && d'.input == d.input && d'.output + d'.phase.body == d.output + d.phase.body
  {
    if ios != [] {
      var before, io := ios[..|ios| - 1], ios[|ios| - 1];
      ResumedHeaderWedges(c, d, before);
      DrainStepFramed(c, Run(c, d, before), io);
    }
  }

  // ----- pipe capacity -----

  /** A frame whose body exceeds the pipe is never forwarded, however the run goes on. */
  lemma {:induction false} OversizeNeverSent(c: Cfg, d: Dir, ios: seq<Io>)
    requires WF(c, d) && d.phase.Fill? && MsgLength(c.endian, d.phase.hdr) - MSG_HEADER_LEN > c.cap
    ensures var d' := Run(c, d, ios);
            d'.phase.Fill? && d'.phase.hdr == d.phase.hdr && d.phase.body <= d'.phase.body && d'.output == d.output
  {
    if ios != [] {
      OversizeNeverSent(c, d, ios[..|ios| - 1]);
    }
  }

  // ----- progress -----

  /** Bytes still to be moved, in and out, before the frame in flight clears. */
  function Budget(c: Cfg, p: Phase): int {
    match p
    case Await(_, _) => 0
    case Fill(hdr, body) => 2 * MsgLength(c.endian, hdr) - MSG_HEADER_LEN - |body|
    case Head(_, done, body) => MSG_HEADER_LEN - done + |body|
    case Drain(_, body, slack, _) => |body| + slack
  }

  function Moved(c: Cfg, d: Dir, io: Io): int
    requires WF(c, d)
  {
    |Step(c, d, io).input| - |d.input| + |Step(c, d, io).output| - |d.output|
  }

  /**
   * After the header is in, every call lowers the budget by exactly the bytes it moved (a resumed
   * header instead leaves its slack behind), and the budget is zero exactly when the state clears.
   */
  lemma BudgetFalls(c: Cfg, d: Dir, io: Io)
    requires WF(c, d) && !d.phase.Await?
    ensures var p := Step(c, d, io).phase;
            Budget(c, p) == Budget(c, d.phase) - Moved(c, d, io)
                            + (if d.phase.Head? && p.Drain? then d.phase.done else 0)
    ensures Budget(c, d.phase) > 0 && (Budget(c, Step(c, d, io).phase) == 0 <==> Step(c, d, io).phase.Await?)
  {
    match d.phase
    case Fill(_, _) => var _ := FillStepCases(c, d, io);
    case Head(_, _, _) => HeadStepCases(c, d, io);
    case Drain(_, _, _, _) => var _ := DrainStepCases(c, d, io);
  }

  lemma FullHeaderIn(c: Cfg, d: Dir, hdr: HeaderBytes)
    requires WF(c, d) && d.phase.Await? && d.open && MsgLength(c.endian, hdr) > MSG_HEADER_LEN
    ensures ReadHeader(c, d, Got(hdr)) == Dir(Fill(hdr, []), true, d.input + hdr, d.output)
  {
    assert Zeros(0) + hdr == hdr && hdr[..MSG_HEADER_LEN] == hdr;
  }

  lemma FullBodyIn(c: Cfg, d: Dir, body: seq<byte>)
    requires WF(c, d) && d.phase.Fill? && d.phase.body == [] && d.open
    requires MSG_HEADER_LEN + |body| == MsgLength(c.endian, d.phase.hdr) && |body| <= c.cap
    ensures FillPipe(c, d, Got(body)) == Dir(Head(d.phase.hdr, 0, body), true, d.input + body, d.output)
  {
    assert body[..|body|] == body && [] + body == body;
  }

  lemma FullHeaderOut(c: Cfg, d: Dir, io: Io)
    requires WF(c, d) && d.phase.Head? && d.phase.done == 0 && io.Put? && io.n >= MSG_HEADER_LEN
    ensures WriteHeader(c, d, io)
         == Dir(Drain(d.phase.hdr, d.phase.body, 0, MSG_HEADER_LEN), d.open, d.input, d.output + d.phase.hdr)
  {
    var hdr := d.phase.hdr;
    assert HeaderBuffer(hdr, 0)[..MSG_HEADER_LEN] == hdr;
  }

  lemma FullBodyOut(c: Cfg, d: Dir, io: Io)
    requires WF(c, d) && d.phase.Drain? && d.phase.slack == 0 && io.Put? && io.n >= |d.phase.body|
    ensures DrainPipe(c, d, io) == Dir(Await(0, 0), d.open, d.input, d.output + d.phase.body)
  {
    assert d.phase.body[..|d.phase.body|] == d.phase.body;
  }

  lemma WholeFrameIn(c: Cfg, d: Dir, hdr: HeaderBytes, body: seq<byte>)
    requires WF(c, d) && d.phase.Await? && d.open && body != []
    requires MSG_HEADER_LEN + |body| == MsgLength(c.endian, hdr) && |body| <= c.cap
    ensures Receive(c, d, Got(hdr), Got(body)) == Dir(Head(hdr, 0, body), true, d.input + hdr + body, d.output)
  {
    FullHeaderIn(c, d, hdr);
    FullBodyIn(c, ReadHeader(c, d, Got(hdr)), body);
  }

  lemma WholeFrameOut(c: Cfg, d: Dir, head: Io, drain: Io)
    requires WF(c, d) && d.phase.Head? && d.phase.done == 0
    requires head.Put? && head.n >= MSG_HEADER_LEN && drain.Put? && drain.n >= |d.phase.body|
    ensures Send(c, d, head, drain) == Dir(Await(0, 0), d.open, d.input, d.output + d.phase.hdr + d.phase.body)
  {
    FullHeaderOut(c, d, head);
    FullBodyOut(c, WriteHeader(c, d, head), drain);
  }

  /** What one generous event does with a whole frame that fits the pipe. */
  lemma WholeFrameInOneEvent(c: Cfg, d: Dir, hdr: HeaderBytes, body: seq<byte>, ev: Event)
    requires WF(c, d) && d.phase.Await? && d.open && body != []
    requires MSG_HEADER_LEN + |body| == MsgLength(c.endian, hdr) && |body| <= c.cap
    requires ev.header == Got(hdr) && ev.fill == Got(body)
    requires ev.head.Put? && ev.head.n >= MSG_HEADER_LEN && ev.drain.Put? && ev.drain.n >= |body|
    ensures OnEvent(c, d, ev) == Dir(Await(0, 0), true, d.input + hdr + body, d.output + hdr + body)
  {
    WholeFrameIn(c, d, hdr, body);
    WholeFrameOut(c, Receive(c, d, ev.header, ev.fill), ev.head, ev.drain);
  }

  // ----- events are runs -----

  /** The offers the system calls of one event actually take up, added to those of a run so far. */
  function TakenIn(c: Cfg, d: Dir, header: Io, fill: Io, ios: seq<Io>): seq<Io>
    requires WF(c, d)
  {
    var d1 := if d.phase.Await? then ReadHeader(c, d, header) else d;
    ios + Offer(d.phase.Await?, header) + Offer(d1.phase.Fill?, fill)
  }

  function TakenOut(c: Cfg, d: Dir, head: Io, drain: Io, ios: seq<Io>): seq<Io>
    requires WF(c, d)
  {
    var d1 := if d.phase.Head? then WriteHeader(c, d, head) else d;
    ios + Offer(d.phase.Head?, head) + Offer(d1.phase.Drain?, drain)
  }

  function Taken(c: Cfg, d: Dir, ev: Event): (ios: seq<Io>)
    requires WF(c, d)
  {
    var d1 := Receive(c, d, ev.header, ev.fill);
    var d2 := Send(c, d1, ev.head, ev.drain);
    TakenOut(c, d1, ev.head, ev.drain, TakenIn(c, d, ev.header, ev.fill, [])) + Offer(d2.phase.Drain?, ev.again)
  }

  lemma RunOffer(c: Cfg, d0: Dir, ios: seq<Io>, made: bool, io: Io)
    requires WF(c, d0)
    ensures Run(c, d0, ios + Offer(made, io)) == if made then Step(c, Run(c, d0, ios), io) else Run(c, d0, ios)
  {
    if made {
      assert (ios + [io])[..|ios + [io]| - 1] == ios;
    } else {
      assert ios + [] == ios;
    }
  }

  lemma ReceiveIsRun(c: Cfg, d0: Dir, ios: seq<Io>, header: Io, fill: Io)
    requires WF(c, d0)
    ensures var d := Run(c, d0, ios); Receive(c, d, header, fill) == Run(c, d0, TakenIn(c, d, header, fill, ios))
  {
    var d := Run(c, d0, ios);
    RunOffer(c, d0, ios, d.phase.Await?, header);
    var ios1 := ios + Offer(d.phase.Await?, header);
    RunOffer(c, d0, ios1, Run(c, d0, ios1).phase.Fill?, fill);
  }

  lemma SendIsRun(c: Cfg, d0: Dir, ios: seq<Io>, head: Io, drain: Io)
    requires WF(c, d0)
    ensures var d := Run(c, d0, ios); Send(c, d, head, drain) == Run(c, d0, TakenOut(c, d, head, drain, ios))
  {
    var d := Run(c, d0, ios);
    RunOffer(c, d0, ios, d.phase.Head?, head);
    var ios1 := ios + Offer(d.phase.Head?, head);
    RunOffer(c, d0, ios1, Run(c, d0, ios1).phase.Drain?, drain);
  }

  /** So every theorem about runs is one about event loops. */
  lemma EventIsRun(c: Cfg, d: Dir, ev: Event)
    requires WF(c, d)
    ensures OnEvent(c, d, ev) == Run(c, d, Taken(c, d, ev))
  {
    assert Run(c, d, []) == d;
    ReceiveIsRun(c, d, [], ev.header, ev.fill);
    var ios := TakenIn(c, d, ev.header, ev.fill, []);
    SendIsRun(c, d, ios, ev.head, ev.drain);
    var d1 := Receive(c, d, ev.header, ev.fill);
    RunOffer(c, d, TakenOut(c, d1, ev.head, ev.drain, ios), Send(c, d1, ev.head, ev.drain).phase.Drain?, ev.again);
  }

  // ----- event loops are runs -----

  lemma {:induction false} RunAppend(c: Cfg, d: Dir, xs: seq<Io>, ys: seq<Io>)
    requires WF(c, d)
    ensures Run(c, d, xs + ys) == Run(c, Run(c, d, xs), ys)
  {
    if ys == [] {
      assert xs + ys == xs;
    } else {
      assert (xs + ys)[..|xs + ys| - 1] == xs + ys[..|ys| - 1];
      RunAppend(c, d, xs, ys[..|ys| - 1]);
    }
  }

  lemma OneMoreEvent(c: Cfg, d: Dir, evs: seq<Event>, ev: Event)
    requires WF(c, d)
    ensures Events(c, d, evs + [ev]) == OnEvent(c, Events(c, d, evs), ev)
  {
    assert (evs + [ev])[..|evs + [ev]| - 1] == evs;
  }

  /** The offers a whole event loop takes up. */
  function TakenAll(c: Cfg, d: Dir, evs: seq<Event>): (ios: seq<Io>)
    requires WF(c, d)
  {
    if evs == [] then [] else
    var before := evs[..|evs| - 1];
    TakenAll(c, d, before) + Taken(c, Events(c, d, before), evs[|evs| - 1])
  }

  lemma {:induction false} EventsAreRun(c: Cfg, d: Dir, evs: seq<Event>)
    requires WF(c, d)
    ensures Events(c, d, evs) == Run(c, d, TakenAll(c, d, evs))
  {
    if evs != [] {
      var before, ev := evs[..|evs| - 1], evs[|evs| - 1];
      EventsAreRun(c, d, before);
      EventIsRun(c, Events(c, d, before), ev);
      RunAppend(c, d, TakenAll(c, d, before), Taken(c, Events(c, d, before), ev));
    }
  }

  /**
   * The event loop of one direction, for every sequence of events: its output is a prefix of its
   * input exactly when no header write it made was resumed with a nonzero byte due, and then it
   * stores and forwards whole frames.  All-or-nothing header writes are enough.
   */
  lemma EventLoopStream(c: Cfg, evs: seq<Event>)
    ensures var d, ios := Events(c, START, evs), TakenAll(c, START, evs);
            && (d.output <= d.input <==> CleanRun(c, START, ios))
            && (CleanRun(c, START, ios) ==> StoredAndForwarded(c, d))
            && (Unsplit(d.phase) ==> CleanRun(c, START, ios))
            && |d.input| == |d.output| + Held(d.phase)
  {
    var ios := TakenAll(c, START, evs);
    EventsAreRun(c, START, evs);
    StreamCorrectIffClean(c, ios);
    WholeHeadersIff(c, ios);
    RunBalanced(c, ios);
    if CleanRun(c, START, ios) {
      StoreAndForward(c, ios);
    }
  }

  // ----- a frame in flight clears -----

  /** What the call of the present phase is offered moves at least one byte, and a header at once. */
  predicate Offers(d: Dir, io: Io) {
    match d.phase
    case Await(_, _) => true
    case Fill(_, _) => d.open && io.Got? && io.data != []
    case Head(_, _, _) => io.Put? && io.n >= MSG_HEADER_LEN
    case Drain(_, _, _, _) => io.Put? && io.n > 0
  }

  predicate AllOffers(c: Cfg, d: Dir, ios: seq<Io>)
    requires WF(c, d)
    decreases |ios|
  {
    ios != [] && !d.phase.Await? ==> Offers(d, ios[0]) && AllOffers(c, Step(c, d, ios[0]), ios[1..])
  }

  lemma OfferMoves(c: Cfg, d: Dir, io: Io)
    requires WF(c, d) && !d.phase.Await? && Unsplit(d.phase) && Offers(d, io)
    requires d.phase.Fill? ==> MsgLength(c.endian, d.phase.hdr) - MSG_HEADER_LEN <= c.cap
    ensures Unsplit(Step(c, d, io).phase) && Budget(c, Step(c, d, io).phase) < Budget(c, d.phase)
    ensures var p := Step(c, d, io).phase; p.Fill? ==> d.phase.Fill? && p.hdr == d.phase.hdr
  {
    match d.phase
    case Fill(_, _) => var _ := FillStepCases(c, d, io);
    case Head(_, _, _) => HeadStepCases(c, d, io);
    case Drain(_, _, _, _) => var _ := DrainStepCases(c, d, io);
  }

  /** A frame that fits the pipe and whose header goes out whole clears within `Budget` calls that each move a byte. */
  lemma {:induction false} FrameClears(c: Cfg, d: Dir, ios: seq<Io>)
    requires WF(c, d) && Unsplit(d.phase) && AllOffers(c, d, ios) && |ios| >= Budget(c, d.phase)
    requires d.phase.Fill? ==> MsgLength(c.endian, d.phase.hdr) - MSG_HEADER_LEN <= c.cap
    ensures exists k :: 0 <= k <= |ios| && Run(c, d, ios[..k]).phase.Await?
    decreases |ios|
  {
    if d.phase.Await? {
      assert Run(c, d, ios[..0]) == d;
    } else {
      BudgetFalls(c, d, Again);
      OfferMoves(c, d, ios[0]);
      var d', rest := Step(c, d, ios[0]), ios[1..];
      FrameClears(c, d', rest);
      var k :| 0 <= k <= |rest| && Run(c, d', rest[..k]).phase.Await?;
      RunFirst(c, d, ios, k);
      assert Run(c, d, ios[..k + 1]).phase.Await?;
    }
  }

  lemma RunFirst(c: Cfg, d: Dir, ios: seq<Io>, k: nat)
    requires WF(c, d) && k < |ios|
    ensures Run(c, d, ios[..k + 1]) == Run(c, Step(c, d, ios[0]), ios[1..][..k])
  {
    assert ios[..k + 1] == [ios[0]] + ios[1..][..k];
    assert [ios[0]][..0] == [];
    RunAppend(c, d, [ios[0]], ios[1..][..k]);
  }

  // ----- a stream that goes wrong -----

  /** Twenty-one bytes, little-endian, the code's low byte 7. */
  function SmallHeader(): HeaderBytes {
    [1, 21, 0, 0, 0, 7] + Zeros(14)
  }

  lemma FirstPiece(c: Cfg, hdr: HeaderBytes, body: seq<byte>, n: nat)
    requires body != [] && MSG_HEADER_LEN + |body| == MsgLength(c.endian, hdr) && |body| <= c.cap && 0 < n < MSG_HEADER_LEN
    ensures OnEvent(c, START, Event(Got(hdr), Got(body), Put(n), Again, Again)) == Dir(Head(hdr, n, body), true, hdr + body, hdr[..n])
  {
    WholeFrameIn(c, START, hdr, body);
    assert [] + hdr + body == hdr + body;
    var d := Dir(Head(hdr, 0, body), true, hdr + body, []);
    HeadStepCases(c, d, Put(n));
    assert HeaderBuffer(hdr, 0)[..n] == hdr[..n];
  }

  lemma SecondPiece(c: Cfg, d: Dir)
    requires WF(c, d) && d.phase.Head? && d.phase.done > 0
    ensures var Head(hdr, done, body) := d.phase;
            OnEvent(c, d, Event(Again, Again, Put(MSG_HEADER_LEN - done), Again, Again))
            == Dir(Drain(hdr, body, done, MSG_HEADER_LEN), d.open, d.input,
                   d.output + HeaderBuffer(hdr, done)[..MSG_HEADER_LEN - done])
  {
    HeadStepCases(c, d, Put(MSG_HEADER_LEN - d.phase.done));
  }

  /**
   * One small frame whose header is written in two pieces, 5 bytes and then 15: the second piece
   * starts again from the front, its first 5 bytes cleared, and the counter is 5 too high from then on.
   */
  lemma SplitHeaderDiverges(cap: nat)
    requires cap > 0
    ensures var evs := [Event(Got(SmallHeader()), Got([9]), Put(5), Again, Again), Event(Again, Again, Put(15), Again, Again)];
            var d := Events(Cfg(LITTLE, cap), START, evs);
            && d.phase.Drain? && d.phase.slack == 5 && d.input == SmallHeader() + [9]
            && d.output == [1, 21, 0, 0, 0] + [0, 0, 0, 0, 0] + [7, 0, 0, 0, 0, 0, 0, 0, 0, 0]
            && !(d.output <= d.input)
  {
    var c, hdr := Cfg(LITTLE, cap), SmallHeader();
    var ev1, ev2 := Event(Got(hdr), Got([9]), Put(5), Again, Again), Event(Again, Again, Put(15), Again, Again);
    FirstPiece(c, hdr, [9], 5);
    SecondPiece(c, OnEvent(c, START, ev1));
    TwoEvents(c, START, ev1, ev2);
    SplitOutput(hdr, hdr[..5] + HeaderBuffer(hdr, 5)[..15]);
  }

  lemma SplitOutput(hdr: HeaderBytes, output: seq<byte>)
    requires hdr == SmallHeader() && output == hdr[..5] + HeaderBuffer(hdr, 5)[..15]
    ensures output == [1, 21, 0, 0, 0] + [0, 0, 0, 0, 0] + [7, 0, 0, 0, 0, 0, 0, 0, 0, 0]
    ensures !(output <= hdr + [9])
  {
    assert HeaderBuffer(hdr, 5)[..15] == Zeros(5) + hdr[5..15];
    assert output[5] == 0 && (hdr + [9])[5] == hdr[5] == 7;
  }

  lemma TwoEvents(c: Cfg, d: Dir, ev1: Event, ev2: Event)
    requires WF(c, d)
    ensures Events(c, d, [ev1, ev2]) == OnEvent(c, OnEvent(c, d, ev1), ev2)
  {
    assert [ev1, ev2][..1] == [ev1] && [ev1][..0] == [];
    assert Events(c, d, [ev1]) == OnEvent(c, d, ev1);
  }
}
