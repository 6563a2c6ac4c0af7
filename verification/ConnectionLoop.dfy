/** The connection loop of pkg/server.go on values, for any handler of envelopes: frames in,
    responses out. `S` is the handler's state and `O` what its surroundings answer. */
module ConnectionLoop {
  import opened Basics
  import opened Protocol
  import opened Framing

  /** JSON parsing of a line, and the handler behind the server. */
  datatype Handling<!S, !O> = Handling(
    parse: Bytes -> Option<Envelope>,
    handle: (S, Envelope, O) -> (S, Outcome))

  /** What happens around a connection: whether the context is cancelled when the n-th token
      is taken up, what the surroundings answer to it, and which writes fail. */
  datatype Weather<O> = Weather(cancelled: nat -> bool, outside: nat -> O, failing: nat -> bool)

  datatype Reply = Reply(response: Response, stopIfUnsent: bool)

  /** One non-empty line: malformed text gets an error ack; a handler error too. */
  function Answer<S, O>(h: Handling<S, O>, v: S, line: Bytes, o: O): (S, Reply)
  {
    match h.parse(line)
    case None => (v, Reply(Ack("", false, Some(Malformed)), false))
    case Some(env) =>
      var (after, outcome) := h.handle(v, env, o);
      (after, Reply(ResponseTo(env.msgType, outcome), outcome.Answered?))
  }

  /** The loop, with `n` tokens taken up and `w` writes made before. Only a failed write of a
      handler's own response ends the connection. */
  function Serve<S, O>(h: Handling<S, O>, wx: Weather<O>, v: S, lines: seq<Bytes>, n: nat, w: nat)
    : (S, seq<Response>)
    decreases |lines|
  {
    if lines == [] || wx.cancelled(n) then (v, [])
    else if lines[0] == [] then Serve(h, wx, v, lines[1..], n + 1, w)
    else
      var (after, reply) := Answer(h, v, lines[0], wx.outside(n));
      if wx.failing(w) then
        if reply.stopIfUnsent then (after, []) else Serve(h, wx, after, lines[1..], n + 1, w + 1)
      else
        var (end, sent) := Serve(h, wx, after, lines[1..], n + 1, w + 1);
        (end, [reply.response] + sent)
  }

  /** What a connection has given in the end, from what is sent so far and the rest. */
  ghost function After<S>(sent: seq<Response>, rest: (S, seq<Response>)): (S, seq<Response>)
  {
    (rest.0, sent + rest.1)
  }

  lemma ServeEnds<S, O>(
      h: Handling<S, O>, wx: Weather<O>, v: S, lines: seq<Bytes>, n: nat, w: nat, sent: seq<Response>)
    requires lines == [] || wx.cancelled(n)
    ensures After(sent, Serve(h, wx, v, lines, n, w)) == (v, sent)
  {
    assert sent + [] == sent;
  }

  lemma SkipEmpty<S, O>(h: Handling<S, O>, wx: Weather<O>, v: S, rest: seq<Bytes>, n: nat, w: nat)
    requires !wx.cancelled(n)
    ensures Serve(h, wx, v, [[]] + rest, n, w) == Serve(h, wx, v, rest, n + 1, w)
  {
    assert ([[]] + rest)[1..] == rest;
  }

  lemma ServeLine<S, O>(
      h: Handling<S, O>, wx: Weather<O>, v: S, line: Bytes, rest: seq<Bytes>, n: nat, w: nat,
      sent: seq<Response>)
    requires line != [] && !wx.cancelled(n)
    ensures var (after, reply) := Answer(h, v, line, wx.outside(n));
      var now := sent + (if wx.failing(w) then [] else [reply.response]);
      After(sent, Serve(h, wx, v, [line] + rest, n, w)) ==
        if wx.failing(w) && reply.stopIfUnsent then (after, now)
        else After(now, Serve(h, wx, after, rest, n + 1, w + 1))
  {
    assert ([line] + rest)[1..] == rest && sent + [] == sent;
    var (after, reply) := Answer(h, v, line, wx.outside(n));
    var (_, tail) := Serve(h, wx, after, rest, n + 1, w + 1);
    assert sent + ([reply.response] + tail) == sent + [reply.response] + tail;
  }

  // ----- Laws of the loop -------------------------------------------------------------

  /** Nothing is cancelled and every write succeeds. */
  ghost predicate Calm<O>(wx: Weather<O>)
  {
    forall k: nat :: !wx.cancelled(k) && !wx.failing(k)
  }

  function NonEmpty(lines: seq<Bytes>): seq<Bytes>
  {
    if lines == [] then []
    else (if lines[0] == [] then [] else [lines[0]]) + NonEmpty(lines[1..])
  }

  lemma ServeSkips<S, O>(h: Handling<S, O>, wx: Weather<O>, v: S, lines: seq<Bytes>, n: nat, w: nat)
    requires Calm(wx) && lines != [] && lines[0] == []
    ensures Serve(h, wx, v, lines, n, w) == Serve(h, wx, v, lines[1..], n + 1, w)
  {
    assert !wx.cancelled(n);
  }

  lemma ServeAnswers<S, O>(h: Handling<S, O>, wx: Weather<O>, v: S, lines: seq<Bytes>, n: nat, w: nat)
    requires Calm(wx) && lines != [] && lines[0] != []
    ensures var (after, reply) := Answer(h, v, lines[0], wx.outside(n));
      var (end, sent) := Serve(h, wx, after, lines[1..], n + 1, w + 1);
      Serve(h, wx, v, lines, n, w) == (end, [reply.response] + sent)
  {
    hide Answer;
    assert !wx.cancelled(n) && !wx.failing(w);
  }

  lemma NonEmptyFirst(lines: seq<Bytes>)
    requires lines != []
    ensures |NonEmpty(lines)| == |NonEmpty(lines[1..])| + (if lines[0] == [] then 0 else 1)
  {
  }

  lemma ConcatTail<T>(a: seq<T>, b: seq<T>)
    requires a != []
    ensures a + b != [] && (a + b)[0] == a[0] && (a + b)[1..] == a[1..] + b
  {
  }

  lemma Nothing<T>(a: seq<T>)
    ensures [] + a == a && a + [] == a
  {
  }

  lemma Regroup<T>(x: T, a: seq<T>, b: seq<T>)
    ensures [x] + a + b == [x] + (a + b) && |[x] + a| == 1 + |a|
  {
  }

  /** On a calm connection serving a batch of lines and then more is serving all of them. */
  lemma {:induction false} ServeInParts<S, O>(
      h: Handling<S, O>, wx: Weather<O>, v: S, a: seq<Bytes>, b: seq<Bytes>, n: nat, w: nat)
    requires Calm(wx)
    ensures var (mid, first) := Serve(h, wx, v, a, n, w);
      var (end, second) := Serve(h, wx, mid, b, n + |a|, w + |first|);
      && Serve(h, wx, v, a + b, n, w) == (end, first + second)
      && |first| == |NonEmpty(a)|
    decreases |a|
  {
    if a == [] {
      ServeNothing(h, wx, v, b, n, w);
    } else {
      ConcatTail(a, b);
      NonEmptyFirst(a);
      if a[0] == [] {
        hide Serve, NonEmpty, Calm;
        ServeSkips(h, wx, v, a, n, w);
        ServeSkips(h, wx, v, a + b, n, w);
        ServeInParts(h, wx, v, a[1..], b, n + 1, w);
      } else {
        hide Serve, Answer, NonEmpty, Calm;
        var (after, reply) := Answer(h, v, a[0], wx.outside(n));
        ServeAnswers(h, wx, v, a, n, w);
        ServeAnswers(h, wx, v, a + b, n, w);
        ServeInParts(h, wx, after, a[1..], b, n + 1, w + 1);
        var (mid, rest) := Serve(h, wx, after, a[1..], n + 1, w + 1);
        Regroup(reply.response, rest, Serve(h, wx, mid, b, n + |a|, w + 1 + |rest|).1);
      }
    }
  }

  lemma ServeNothing<S, O>(h: Handling<S, O>, wx: Weather<O>, v: S, b: seq<Bytes>, n: nat, w: nat)
    ensures Serve(h, wx, v, [], n, w) == (v, [])
    ensures Serve(h, wx, v, [] + b, n, w) == (Serve(h, wx, v, b, n, w).0, [] + Serve(h, wx, v, b, n, w).1)
  {
    hide Answer;
    Nothing(b);
    Nothing(Serve(h, wx, v, b, n, w).1);
  }

  /** One response per non-empty line, in order: the response to a line stands behind those
      to the non-empty lines before it, and is the answer in the state they left. */
  lemma OneResponseEach<S, O>(h: Handling<S, O>, wx: Weather<O>, v: S, a: seq<Bytes>, line: Bytes, b: seq<Bytes>)
    requires Calm(wx) && line != []
    ensures var sent := Serve(h, wx, v, a + [line] + b, 0, 0).1;
      && |sent| == |NonEmpty(a)| + 1 + |NonEmpty(b)|
      && sent[|NonEmpty(a)|] == Answer(h, Serve(h, wx, v, a, 0, 0).0, line, wx.outside(|a|)).1.response
  {
    hide Answer;
    var (mid, first) := Serve(h, wx, v, a, 0, 0);
    ServeInParts(h, wx, v, a, [line] + b, 0, 0);
    assert a + [line] + b == a + ([line] + b);
    assert ([line] + b)[1..] == b;
    assert !wx.cancelled(|a|) && !wx.failing(|first|);
    var (after, reply) := Answer(h, mid, line, wx.outside(|a|));
    ServeInParts(h, wx, after, b, [], |a| + 1, |first| + 1);
    assert b + [] == b;
  }

  /** The operations among the lines, each with what the file system answers to it. */
  function Operations<S, O>(h: Handling<S, O>, wx: Weather<O>, lines: seq<Bytes>, n: nat): seq<(Envelope, O)>
    decreases |lines|
  {
    if lines == [] then []
    else
      var env := h.parse(lines[0]);
      (if lines[0] == [] || env.None? then [] else [(env.value, wx.outside(n))])
      + Operations(h, wx, lines[1..], n + 1)
  }

  function Fold<S, O>(h: Handling<S, O>, v: S, ops: seq<(Envelope, O)>): S
    decreases |ops|
  {
    if ops == [] then v
    else Fold(h, h.handle(v, ops[0].0, ops[0].1).0, ops[1..])
  }

  /** The daemon ends in the left fold of the dispatched operations, and of nothing else. */
  lemma {:induction false} StateIsFold<S, O>(
      h: Handling<S, O>, wx: Weather<O>, v: S, lines: seq<Bytes>, n: nat, w: nat)
    requires Calm(wx)
    ensures Serve(h, wx, v, lines, n, w).0 == Fold(h, v, Operations(h, wx, lines, n))
    decreases |lines|
  {
    if lines != [] {
      assert !wx.cancelled(n) && !wx.failing(w);
      var rest := Operations(h, wx, lines[1..], n + 1);
      if lines[0] == [] || h.parse(lines[0]).None? {
        assert [] + rest == rest;
        StateIsFold(h, wx, v, lines[1..], n + 1, if lines[0] == [] then w else w + 1);
      } else {
        var op := (h.parse(lines[0]).value, wx.outside(n));
        HeadOf(op, rest);
        StateIsFold(h, wx, Answer(h, v, lines[0], wx.outside(n)).0, lines[1..], n + 1, w + 1);
      }
    }
  }

  lemma HeadOf<T>(x: T, xs: seq<T>)
    ensures ([x] + xs)[0] == x && ([x] + xs)[1..] == xs
  {
  }

  ghost function Calmed<O>(wx: Weather<O>): (calm: Weather<O>)
    ensures Calm(calm)
  {
    Weather(_ => false, wx.outside, _ => false)
  }

  /** A cancelled context ends the connection before its next line, and an empty line is passed
      over without an answer. */
  lemma NothingForThese<S, O>(
      h: Handling<S, O>, wx: Weather<O>, v: S, lines: seq<Bytes>, n: nat, w: nat)
    ensures wx.cancelled(n) ==> Serve(h, wx, v, lines, n, w) == (v, [])
    ensures !wx.cancelled(n) && lines != [] && lines[0] == [] ==>
      Serve(h, wx, v, lines, n, w) == Serve(h, wx, v, lines[1..], n + 1, w)
  {
  }

  /** One line from end to end: a malformed one gets an error ack and changes nothing; an error
      of the handler gets an error ack for the frame's type; a response of the handler is
      sent as it is. Only when this last one cannot be sent does the connection end. */
  lemma LineByLine<S, O>(
      h: Handling<S, O>, wx: Weather<O>, v: S, line: Bytes, rest: seq<Bytes>, n: nat, w: nat)
    requires line != [] && !wx.cancelled(n)
    ensures var served := Serve(h, wx, v, [line] + rest, n, w);
      match h.parse(line)
      case None =>
        var later := Serve(h, wx, v, rest, n + 1, w + 1);
        served == (later.0, (if wx.failing(w) then [] else [Ack("", false, Some(Malformed))]) + later.1)
      case Some(env) =>
        var (after, outcome) := h.handle(v, env, wx.outside(n));
        var later := Serve(h, wx, after, rest, n + 1, w + 1);
        match outcome
        case Answered(response) =>
          served == if wx.failing(w) then (after, []) else (later.0, [response] + later.1)
        case Failed(failure) =>
          served == (later.0,
            (if wx.failing(w) then [] else [Ack(env.msgType, false, Some(failure))]) + later.1)
  {
    assert ([line] + rest)[0] == line && ([line] + rest)[1..] == rest;
    Nothing(Serve(h, wx, v, rest, n + 1, w + 1).1);
    if h.parse(line).Some? {
      var after := h.handle(v, h.parse(line).value, wx.outside(n)).0;
      Nothing(Serve(h, wx, after, rest, n + 1, w + 1).1);
    }
  }

  /** The handler of `line` gave a response of its own. */
  ghost predicate AnswersItself<S, O>(h: Handling<S, O>, v: S, line: Bytes, o: O)
  {
    line != [] && h.parse(line).Some? && h.handle(v, h.parse(line).value, o).1.Answered?
  }

  /** The connection serves its first `m` lines. These are all, unless the context is cancelled
      at the next one, or a write has failed and the last line served was answered by the
      handler itself. */
  ghost predicate ServedFirst<S, O>(
      h: Handling<S, O>, wx: Weather<O>, v: S, lines: seq<Bytes>, n: nat, w: nat, m: nat)
  {
    && m <= |lines|
    && Serve(h, wx, v, lines, n, w).0 == Serve(h, Calmed(wx), v, lines[..m], n, w).0
    && |Serve(h, wx, v, lines, n, w).1| <= |NonEmpty(lines[..m])|
    && (m < |lines| && !wx.cancelled(n + m) ==>
          && m > 0 && (exists k: nat :: wx.failing(k))
          && AnswersItself(h, Serve(h, Calmed(wx), v, lines[..m - 1], n, w).0, lines[m - 1], wx.outside(n + m - 1)))
  }

  /** Cancellation and failed writes only ever cut a connection short: the daemon is left as
      a calm connection would leave it after the first lines. */
  lemma {:induction false} CutShort<S, O>(
      h: Handling<S, O>, wx: Weather<O>, v: S, lines: seq<Bytes>, n: nat, w: nat)
    returns (m: nat)
    ensures ServedFirst(h, wx, v, lines, n, w, m)
    decreases |lines|
  {
    if lines == [] || wx.cancelled(n) {
      m := 0;
    } else if lines[0] == [] {
      hide ServedFirst, Answer, Serve;
      m := CutShort(h, wx, v, lines[1..], n + 1, w);
      CutAfterEmpty(h, wx, v, lines, n, w, m);
      m := m + 1;
    } else {
      hide ServedFirst, Answer, Serve;
      var (after, reply) := Answer(h, v, lines[0], wx.outside(n));
      if wx.failing(w) && reply.stopIfUnsent {
        m := 1;
        CutAtFirst(h, wx, v, lines, n, w);
      } else {
        m := CutShort(h, wx, after, lines[1..], n + 1, w + 1);
        CutAfterAnswer(h, wx, v, lines, n, w, m);
        m := m + 1;
      }
    }
  }

  lemma FirstsOfTail<T>(xs: seq<T>, m: nat)
    requires m < |xs|
    ensures xs[..m + 1] != [] && xs[..m + 1][0] == xs[0] && xs[..m + 1][1..] == xs[1..][..m]
  {
  }

  lemma CutAtFirst<S, O>(h: Handling<S, O>, wx: Weather<O>, v: S, lines: seq<Bytes>, n: nat, w: nat)
    requires lines != [] && lines[0] != [] && !wx.cancelled(n)
    requires wx.failing(w) && Answer(h, v, lines[0], wx.outside(n)).1.stopIfUnsent
    ensures ServedFirst(h, wx, v, lines, n, w, 1)
  {
    FirstsOfTail(lines, 0);
    StopsForOwnAnswer(h, v, lines[0], wx.outside(n));
    hide Answer, AnswersItself;
    AnswersFirst(h, Calmed(wx), v, lines[..1], n, w);
    assert lines[..0] == [] && lines[1..][..0] == [];
  }

  lemma CutAfterEmpty<S, O>(
      h: Handling<S, O>, wx: Weather<O>, v: S, lines: seq<Bytes>, n: nat, w: nat, m: nat)
    requires lines != [] && lines[0] == [] && !wx.cancelled(n)
    requires ServedFirst(h, wx, v, lines[1..], n + 1, w, m)
    ensures ServedFirst(h, wx, v, lines, n, w, m + 1)
  {
    FirstsOfTail(lines, m);
    SkipsFirst(h, Calmed(wx), v, lines[..m + 1], n, w);
    if m > 0 {
      FirstsOfTail(lines, m - 1);
      SkipsFirst(h, Calmed(wx), v, lines[..m], n, w);
    }
    ServesOneLess(h, wx, v, lines, n, w);
    NonEmptyFirst(lines[..m + 1]);
    hide Serve, AnswersItself, NonEmpty;
  }

  lemma CutAfterAnswer<S, O>(
      h: Handling<S, O>, wx: Weather<O>, v: S, lines: seq<Bytes>, n: nat, w: nat, m: nat)
    requires lines != [] && lines[0] != [] && !wx.cancelled(n)
    requires !(wx.failing(w) && Answer(h, v, lines[0], wx.outside(n)).1.stopIfUnsent)
    requires ServedFirst(h, wx, Answer(h, v, lines[0], wx.outside(n)).0, lines[1..], n + 1, w + 1, m)
    ensures ServedFirst(h, wx, v, lines, n, w, m + 1)
  {
    hide Answer;
    FirstsOfTail(lines, m);
    AnswersFirst(h, Calmed(wx), v, lines[..m + 1], n, w);
    if m > 0 {
      FirstsOfTail(lines, m - 1);
      AnswersFirst(h, Calmed(wx), v, lines[..m], n, w);
    }
    ServesOneLess(h, wx, v, lines, n, w);
    NonEmptyFirst(lines[..m + 1]);
    hide Serve, AnswersItself, NonEmpty;
  }

  /** One line's share of the outcome. */
  lemma ServesOneLess<S, O>(h: Handling<S, O>, wx: Weather<O>, v: S, lines: seq<Bytes>, n: nat, w: nat)
    requires lines != [] && !wx.cancelled(n)
    ensures lines[0] == [] ==> Serve(h, wx, v, lines, n, w) == Serve(h, wx, v, lines[1..], n + 1, w)
    ensures var (after, reply) := Answer(h, v, lines[0], wx.outside(n));
      lines[0] != [] && !(wx.failing(w) && reply.stopIfUnsent) ==>
        var tail := Serve(h, wx, after, lines[1..], n + 1, w + 1);
        && Serve(h, wx, v, lines, n, w).0 == tail.0
        && |Serve(h, wx, v, lines, n, w).1| <= 1 + |tail.1|
  {
    hide Answer;
  }

  lemma StopsForOwnAnswer<S, O>(h: Handling<S, O>, v: S, line: Bytes, o: O)
    requires line != []
    ensures Answer(h, v, line, o).1.stopIfUnsent <==> AnswersItself(h, v, line, o)
  {
  }

  lemma SkipsFirst<S, O>(h: Handling<S, O>, wx: Weather<O>, v: S, lines: seq<Bytes>, n: nat, w: nat)
    requires Calm(wx) && lines != [] && lines[0] == []
    ensures Serve(h, wx, v, lines, n, w).0 == Serve(h, wx, v, lines[1..], n + 1, w).0
  {
    assert !wx.cancelled(n);
  }

  lemma AnswersFirst<S, O>(h: Handling<S, O>, wx: Weather<O>, v: S, lines: seq<Bytes>, n: nat, w: nat)
    requires Calm(wx) && lines != [] && lines[0] != []
    ensures Serve(h, wx, v, lines, n, w).0
      == Serve(h, wx, Answer(h, v, lines[0], wx.outside(n)).0, lines[1..], n + 1, w + 1).0
  {
    hide Answer;
    assert !wx.cancelled(n) && !wx.failing(w);
  }

  /** Framing does not matter to the outcome: however a stream of framable texts is cut into
      reads, the connection serves exactly those texts. */
  lemma ServesWhatWasEncoded<S, O>(h: Handling<S, O>, wx: Weather<O>, v: S, frames: seq<Bytes>)
    requires forall i :: 0 <= i < |frames| ==> Framable(frames[i])
    ensures Serve(h, wx, v, Lines(Encoded(frames)), 0, 0) == Serve(h, wx, v, frames, 0, 0)
  {
    RoundTripIffFramable(frames);
  }
}
