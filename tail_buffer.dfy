/** The command-and-collect routine of the older stand-alone data-taking
    script (`send_and_receive` in pywub/old/take-test-data.py).

    The routine sends one command line, then copies everything the device
    sends to the output file until the response is over. It recognises the
    end by keeping the last few bytes received in a small buffer of twelve
    bytes, updated in place, and checking it for the terminator "OK\n"
    (or "OK\nOK\n" once it has asked the device to stop) whenever a read
    finds nothing. It also gives up after a stretch with no new bytes, and
    another thread can ask it to stop the device or to abort.

    The script's module-level variables become the fields of `Receiver`; the
    other thread's flag writes are a schedule of requests, one landing at the
    top of each pass; `time.time()` is a schedule of clock readings. */
module TakeTestData {
  import opened Wrappers
  import opened Bytes
  import opened Transport
  import Control

  /** "OK\n", the end of a command response. */
  const OkBytes: seq<byte> := [0x4F, 0x4B, 0x0A]
  /** "OK\nOK\n": the end once a stop has been sent, whose own reply is a
      second "OK\n". */
  const OkOkBytes: seq<byte> := OkBytes + OkBytes
  /** `response_length`: the length of the longest terminator. */
  const ResponseLength: nat := |OkOkBytes|
  /** `response_half_full`: past this many bytes the tail is shifted down. */
  const ResponseHalfFull: nat := ResponseLength
  /** The length of `response_buffer`. */
  const BufferSize: nat := ResponseHalfFull + ResponseLength

  /** Why the loop ended; `Running` while it goes on. `OutOfReadings` is the
      model's own: the clock schedule ran dry where the script would read the
      clock again. */
  datatype Ending = Running | Terminated | Aborted | TimedOut | OutOfReadings

  predicate EndsWith(s: seq<byte>, tail: seq<byte>)
  {
    |tail| <= |s| && s[|s| - |tail|..] == tail
  }

  /** The bytes `send_and_receive` sends for `sendline`: the line and a
      newline, encoded; nothing for an empty line. */
  function CommandLine(sendline: string): (bs: seq<byte>)
    requires IsAscii(sendline)
    ensures sendline == [] <==> bs == []
    ensures sendline != [] ==> Decode(bs) == Ok(sendline + "\n")
  {
    if sendline == [] then []
    else
      var line := sendline + "\n";
      assert IsAscii(line) by {
        assert forall i :: 0 <= i < |sendline| ==> line[i] == sendline[i];
      }
      DecodeEncode(line);
      Encode(line)
  }

  /** Python's `buf[start:end]` for `0 <= end <= len(buf)` and `start <= end`:
      a negative start counts back from the end of the whole buffer (and stops
      at 0), and a start at or past `end` gives nothing. */
  function PySlice(buf: seq<byte>, start: int, end: nat): seq<byte>
    requires end <= |buf| && start <= end
  {
    var from := if start >= 0 then start else if start + |buf| >= 0 then start + |buf| else 0;
    if from >= end then [] else buf[from..end]
  }

  /** What the tail buffer holds after `received` has come in: its first `n`
      bytes are the last `n` bytes received, and `n` is at least the length of
      the longest terminator, or everything when fewer bytes came. */
  ghost predicate TailHolds(buf: seq<byte>, n: int, received: seq<byte>)
  {
    && |buf| == BufferSize
    && Min(|received|, ResponseLength) <= n <= BufferSize
    && n <= |received|
    && buf[..n] == received[|received| - n..]
  }

  /** Looking for a terminator in the tail buffer, with Python's slice rules,
      gives the same answer as looking at the end of everything received. */
  lemma TailCheck(buf: seq<byte>, n: int, received: seq<byte>, pattern: seq<byte>)
    requires TailHolds(buf, n, received) && 0 < |pattern| <= ResponseLength
    ensures PySlice(buf, n - |pattern|, n) == pattern <==> EndsWith(received, pattern)
  {
    var k := |pattern|;
    if n >= k {
      calc {
        PySlice(buf, n - k, n);
        buf[..n][n - k..];
        received[|received| - n..][n - k..];
        received[|received| - k..];
      }
    } else {
      assert |received| < k;
    }
  }

  /** The tail buffer and its fill after a non-empty chunk `data` arrives:
      a chunk longer than six bytes leaves its last six at the front;
      otherwise, with more than six bytes held, the last `6 - |data|` of them
      move to the front and the chunk follows; else the chunk is appended.
      Every slice written has the length of the slice it replaces. */
  function TailAfter(buf: seq<byte>, n: nat, data: seq<byte>): (r: (seq<byte>, nat))
    requires |buf| == BufferSize && n <= BufferSize && data != []
    ensures |r.0| == BufferSize && r.1 <= BufferSize
  {
    if |data| > ResponseLength then
      (data[|data| - ResponseLength..] + buf[ResponseLength..], ResponseLength)
    else if n > ResponseHalfFull then
      var nold := ResponseLength - |data|;
      var shifted := buf[n - nold..n] + buf[nold..];
      (shifted[..nold] + data + shifted[nold + |data|..], ResponseLength)
    else
      (buf[..n] + data + buf[n + |data|..], n + |data|)
  }

  /** The tail update keeps what the buffer holds: after the chunk, its
      front is again the end of everything received, at least six bytes
      of it. */
  lemma TailAfterHolds(buf: seq<byte>, n: nat, received: seq<byte>, data: seq<byte>)
    requires TailHolds(buf, n, received) && data != []
    ensures TailHolds(TailAfter(buf, n, data).0, TailAfter(buf, n, data).1, received + data)
    ensures |data| > ResponseLength ==>
      TailAfter(buf, n, data).1 == ResponseLength
      && TailAfter(buf, n, data).0[..ResponseLength] == data[|data| - ResponseLength..]
  {
    var (buf', n') := TailAfter(buf, n, data);
    var all := received + data;
    if |data| > ResponseLength {
      assert buf'[..n'] == data[|data| - ResponseLength..];
      assert all[|all| - n'..] == data[|data| - ResponseLength..];
    } else if n > ResponseHalfFull {
      var nold := ResponseLength - |data|;
      assert buf[n - nold..n] == received[|received| - nold..];
      assert buf'[..n'] == buf[n - nold..n] + data;
      assert all[|all| - n'..] == received[|received| - nold..] + data;
    } else {
      assert buf'[..n'] == received[|received| - n..] + data;
      assert all[|all| - n'..] == received[|received| - n..] + data;
    }
  }

  /** The script's module-level state. */
  class Receiver {
    /** `request_stop_reception`, set by another thread. */
    var requestStopReception: bool
    /** `request_abort`, set by another thread. */
    var requestAbort: bool
    /** `send_and_receive_running`. */
    var sendAndReceiveRunning: bool
    /** `send_and_receive_nbytes`: bytes received by the current call. */
    var sendAndReceiveNbytes: int
    /** `send_and_receive_command_error`. */
    var sendAndReceiveCommandError: bool
    /** `response_buffer`, a `bytearray` of twelve bytes. */
    const responseBuffer: array<byte>
    /** The serial port `s`. */
    const port: Port
    /** The output file `f`. */
    const file: DataFile
    /** The other thread's flag writes still to come, one per pass. */
    var requests: seq<Control.Request>
    /** The readings `time.time()` will still return. */
    var clock: seq<int>

    ghost predicate Valid()
    {
      responseBuffer.Length == BufferSize
    }

    /** The script's start: the globals at their initial values, the buffer
        all zero. */
    constructor (port: Port, file: DataFile, requests: seq<Control.Request>, clock: seq<int>)
      ensures Valid()
      ensures this.port == port && this.file == file
      ensures this.requests == requests && this.clock == clock
      ensures !requestStopReception && !requestAbort && !sendAndReceiveRunning
      ensures sendAndReceiveNbytes == 0 && !sendAndReceiveCommandError
      ensures fresh(responseBuffer)
    {
      requestStopReception := false;
      requestAbort := false;
      sendAndReceiveRunning := false;
      sendAndReceiveNbytes := 0;
      sendAndReceiveCommandError := false;
      responseBuffer := new byte[BufferSize](_ => 0);
      this.port := port;
      this.file := file;
      this.requests := requests;
      this.clock := clock;
    }

    /** `time.time()`. */
    method Time() returns (t: Option<int>)
      modifies this`clock
      ensures old(clock) == [] ==> t == None && clock == []
      ensures old(clock) != [] ==> t == Some(old(clock)[0]) && clock == old(clock)[1..]
    {
      if clock == [] {
        return None;
      }
      t := Some(clock[0]);
      clock := clock[1..];
    }

    /** The other thread's next flag write lands. */
    method Poll()
      modifies this`requests, this`requestAbort, this`requestStopReception
      ensures requests == if old(requests) == [] then [] else old(requests)[1..]
      ensures requestAbort == (old(requestAbort) || (old(requests) != [] && old(requests)[0] == Control.AbortRequest))
      ensures requestStopReception ==
        (old(requestStopReception) || (old(requests) != [] && old(requests)[0] == Control.StopRequest))
    {
      if requests != [] {
        match requests[0] {
          case AbortRequest => requestAbort := true;
          case StopRequest => requestStopReception := true;
          case NoRequest =>
        }
        requests := requests[1..];
      }
    }

    /** The slice assignment `response_buffer[at:at+len(src)] = src` where
        the slice and `src` have the same length, so the buffer keeps its
        size. */
    method Splice(at: nat, src: seq<byte>)
      requires at + |src| <= responseBuffer.Length
      modifies responseBuffer
      ensures responseBuffer[..] ==
        old(responseBuffer[..])[..at] + src + old(responseBuffer[..])[at + |src|..]
    {
      for i := 0 to |src|
        invariant forall j :: 0 <= j < responseBuffer.Length ==>
          responseBuffer[j] == if at <= j < at + i then src[j - at] else old(responseBuffer[j])
      {
        responseBuffer[at + i] := src[i];
      }
      assert responseBuffer[..] ==
        old(responseBuffer[..])[..at] + src + old(responseBuffer[..])[at + |src|..];
    }

    /** The tail update for a non-empty chunk, in place. */
    method UpdateTail(n: nat, data: seq<byte>) returns (n': nat)
      requires Valid() && n <= BufferSize && data != []
      modifies responseBuffer
      ensures (responseBuffer[..], n') == TailAfter(old(responseBuffer[..]), n, data)
    {
      ghost var buf := responseBuffer[..];
      if |data| > ResponseLength {
        Splice(0, data[|data| - ResponseLength..]);
        n' := ResponseLength;
        assert responseBuffer[..] == TailAfter(buf, n, data).0;
      } else if n > ResponseHalfFull {
        var nold := ResponseLength - |data|;
        var moved := responseBuffer[n - nold..n];
        Splice(0, moved);
        ghost var shifted := responseBuffer[..];
        assert shifted == buf[n - nold..n] + buf[nold..];
        Splice(nold, data);
        n' := ResponseLength;
        assert responseBuffer[..] == shifted[..nold] + data + shifted[nold + |data|..];
      } else {
        Splice(n, data);
        n' := n + |data|;
        assert responseBuffer[..] == TailAfter(buf, n, data).0;
      }
    }

    /** The top of a pass: the other thread's next flag write lands, and a
        stop request not yet acted on sends "OK\n" to the device. */
    method StopStep(stopSent: bool) returns (stopSent': bool)
      requires stopSent == requestStopReception
      modifies this`requests, this`requestAbort, this`requestStopReception, port`written
      ensures requests == if old(requests) == [] then [] else old(requests)[1..]
      ensures requestAbort == (old(requestAbort) || (old(requests) != [] && old(requests)[0] == Control.AbortRequest))
      ensures requestStopReception ==
        (old(requestStopReception) || (old(requests) != [] && old(requests)[0] == Control.StopRequest))
      ensures stopSent' == requestStopReception
      ensures port.written == old(port.written) + if stopSent' && !stopSent then [WroteBytes(OkBytes)] else []
    {
      Poll();
      stopSent' := stopSent;
      if requestStopReception && !stopSent {
        var n := port.Write(WroteBytes(OkBytes));
        stopSent' := true;
      }
    }

    /** A read that brought bytes: they are counted, written to the file and
        added to the tail. The check for a leading '?' compares an `int` with
        a `bytes` object, which is never equal, and would only set a local
        variable, so it changes nothing. */
    method ChunkStep(n: nat, data: seq<byte>, ghost received: seq<byte>) returns (n': nat)
      requires Valid() && data != [] && TailHolds(responseBuffer[..], n, received)
      modifies this`sendAndReceiveNbytes, file, responseBuffer
      ensures Valid() && TailHolds(responseBuffer[..], n', received + data)
      ensures sendAndReceiveNbytes == old(sendAndReceiveNbytes) + |data|
      ensures file.data == old(file.data) + data
    {
      sendAndReceiveNbytes := sendAndReceiveNbytes + |data|;
      file.Write(data);
      TailAfterHolds(responseBuffer[..], n, received, data);
      n' := UpdateTail(n, data);
    }

    /** A read that found nothing: the response is over when the tail ends
        in the terminator; otherwise the clock is read, and either the count
        has grown since the reference time, which then moves to now, or the
        line has been idle since the reference time and the call gives up
        once more than `timeout` has passed. */
    method IdleStep(n: nat, stopSent: bool, reftime: int, reftimeNbytes: int, timeout: int, ghost received: seq<byte>)
      returns (ending: Ending, reftime': int, reftimeNbytes': int)
      requires TailHolds(responseBuffer[..], n, received)
      modifies this`clock
      ensures ending == Terminated <==> EndsWith(received, OkBytes) && (stopSent ==> EndsWith(received, OkOkBytes))
      ensures ending == Terminated ==> clock == old(clock) && reftime' == reftime && reftimeNbytes' == reftimeNbytes
      ensures ending != Terminated && old(clock) == [] ==> ending == OutOfReadings && clock == []
      ensures ending != Terminated && old(clock) != [] ==>
        && clock == old(clock)[1..]
        && if sendAndReceiveNbytes > reftimeNbytes then
             ending == Running && reftime' == old(clock)[0] && reftimeNbytes' == sendAndReceiveNbytes
           else
             reftime' == reftime && reftimeNbytes' == reftimeNbytes
             && (ending == TimedOut <==> old(clock)[0] > reftime + timeout)
             && (ending == Running <==> old(clock)[0] <= reftime + timeout)
    {
      TailCheck(responseBuffer[..], n, received, OkBytes);
      TailCheck(responseBuffer[..], n, received, OkOkBytes);
      reftime', reftimeNbytes' := reftime, reftimeNbytes;
      if PySlice(responseBuffer[..], n - |OkBytes|, n) == OkBytes {
        if !stopSent {
          return Terminated, reftime', reftimeNbytes';
        }
        if PySlice(responseBuffer[..], n - |OkOkBytes|, n) == OkOkBytes {
          return Terminated, reftime', reftimeNbytes';
        }
      }
      var now := Time();
      if now.None? {
        return OutOfReadings, reftime', reftimeNbytes';
      }
      ending := Running;
      if sendAndReceiveNbytes > reftimeNbytes {
        reftime' := now.value;
        reftimeNbytes' := sendAndReceiveNbytes;
      } else if now.value > reftime + timeout {
        ending := TimedOut;
      }
    }
  
    /** What is left to drive the loop: flag writes, chunks to read and clock
        readings. */
    static ghost function Budget(requests: seq<Control.Request>, pending: seq<seq<byte>>, clock: seq<int>): nat
    {
      |requests| + |pending| + |clock|
    }

    /** One pass of the collect loop. An abort request ends it before the
        read; a read with bytes never ends it; a read that finds nothing
        looks for the terminator and then at the clock. */
    method Pass(n: nat, stopSent: bool, reftime: int, reftimeNbytes: int, timeout: int, ghost received: seq<byte>)
      returns (n': nat, stopSent': bool, reftime': int, reftimeNbytes': int, ending: Ending, data: seq<byte>)
      requires Valid() && TailHolds(responseBuffer[..], n, received)
      requires stopSent == requestStopReception && !requestAbort
      modifies this`requests, this`requestAbort, this`requestStopReception, this`clock,
        this`sendAndReceiveNbytes, port`pending, port`written, file, responseBuffer
      ensures Valid() && TailHolds(responseBuffer[..], n', received + data)
      ensures stopSent' == requestStopReception
      ensures requestStopReception ==
        (stopSent || (old(requests) != [] && old(requests)[0] == Control.StopRequest))
      ensures port.written == old(port.written) + if stopSent' && !stopSent then [WroteBytes(OkBytes)] else []
      ensures requestAbort <==> ending == Aborted
      ensures requestAbort == (old(requests) != [] && old(requests)[0] == Control.AbortRequest)
      ensures ending == Aborted ==> data == [] && port.pending == old(port.pending)
      ensures ending != Aborted ==>
        data == (if old(port.pending) == [] then [] else old(port.pending)[0])
        && port.pending == (if old(port.pending) == [] then [] else old(port.pending)[1..])
      ensures data + Flatten(port.pending) == Flatten(old(port.pending))
      ensures file.data == old(file.data) + data
      ensures sendAndReceiveNbytes == old(sendAndReceiveNbytes) + |data|
      ensures data != [] ==> ending == Running && reftime' == reftime && reftimeNbytes' == reftimeNbytes
      ensures ending != Aborted && data == [] ==>
        (ending == Terminated <==> EndsWith(received, OkBytes) && (stopSent' ==> EndsWith(received, OkOkBytes)))
      ensures ending == Terminated ==>
        EndsWith(received + data, OkBytes) && (stopSent' ==> EndsWith(received + data, OkOkBytes))
      ensures ending == TimedOut ==>
        data == [] && old(clock) != [] && old(clock)[0] > reftime + timeout
        && reftimeNbytes' == reftimeNbytes && sendAndReceiveNbytes <= reftimeNbytes
      ensures ending == OutOfReadings ==> data == [] && old(clock) == []
      ensures ending == Running ==> Budget(requests, port.pending, clock) < Budget(old(requests), old(port.pending), old(clock))
    {
      stopSent' := StopStep(stopSent);
      n', reftime', reftimeNbytes', data := n, reftime, reftimeNbytes, [];
      if requestAbort {
        ending := Aborted;
      } else {
        n', reftime', reftimeNbytes', ending, data := ReadStep(n, stopSent', reftime, reftimeNbytes, timeout, received);
      }
    }

    /** The read of a pass that was not aborted, and what follows it. */
    method ReadStep(n: nat, stopSent: bool, reftime: int, reftimeNbytes: int, timeout: int, ghost received: seq<byte>)
      returns (n': nat, reftime': int, reftimeNbytes': int, ending: Ending, data: seq<byte>)
      requires Valid() && TailHolds(responseBuffer[..], n, received)
      modifies this`clock, this`sendAndReceiveNbytes, port`pending, file, responseBuffer
      ensures Valid() && TailHolds(responseBuffer[..], n', received + data)
      ensures ending != Aborted
      ensures data == (if old(port.pending) == [] then [] else old(port.pending)[0])
      ensures port.pending == (if old(port.pending) == [] then [] else old(port.pending)[1..])
      ensures data + Flatten(port.pending) == Flatten(old(port.pending))
      ensures file.data == old(file.data) + data
      ensures sendAndReceiveNbytes == old(sendAndReceiveNbytes) + |data|
      ensures data != [] ==> ending == Running && reftime' == reftime && reftimeNbytes' == reftimeNbytes
      ensures data == [] ==>
        (ending == Terminated <==> EndsWith(received, OkBytes) && (stopSent ==> EndsWith(received, OkOkBytes)))
      ensures ending == Terminated ==>
        EndsWith(received + data, OkBytes) && (stopSent ==> EndsWith(received + data, OkOkBytes))
      ensures ending == TimedOut ==>
        data == [] && old(clock) != [] && old(clock)[0] > reftime + timeout
        && reftimeNbytes' == reftimeNbytes && sendAndReceiveNbytes <= reftimeNbytes
      ensures ending == OutOfReadings ==> data == [] && old(clock) == []
      ensures ending == Running ==> |port.pending| + |clock| < |old(port.pending)| + |old(clock)|
    {
      ghost var p := port.pending;
      data := port.ReadWaitingOrOne();
      if p != [] {
        assert Flatten(p) == p[0] + Flatten(p[1..]);
      }
      n', reftime', reftimeNbytes', ending := AfterRead(n, data, stopSent, reftime, reftimeNbytes, timeout, received);
    }

    /** What follows a read: bytes go to the tail, or the idle checks run. */
    method AfterRead(n: nat, data: seq<byte>, stopSent: bool, reftime: int, reftimeNbytes: int, timeout: int,
                     ghost received: seq<byte>)
      returns (n': nat, reftime': int, reftimeNbytes': int, ending: Ending)
      requires Valid() && TailHolds(responseBuffer[..], n, received)
      modifies this`clock, this`sendAndReceiveNbytes, file, responseBuffer
      ensures Valid() && TailHolds(responseBuffer[..], n', received + data)
      ensures ending != Aborted
      ensures file.data == old(file.data) + data
      ensures sendAndReceiveNbytes == old(sendAndReceiveNbytes) + |data|
      ensures data != [] ==> ending == Running && reftime' == reftime && reftimeNbytes' == reftimeNbytes && clock == old(clock)
      ensures data == [] ==>
        (ending == Terminated <==> EndsWith(received, OkBytes) && (stopSent ==> EndsWith(received, OkOkBytes)))
      ensures ending == Terminated ==>
        EndsWith(received + data, OkBytes) && (stopSent ==> EndsWith(received + data, OkOkBytes))
      ensures ending == TimedOut ==>
        data == [] && old(clock) != [] && old(clock)[0] > reftime + timeout
        && reftimeNbytes' == reftimeNbytes && sendAndReceiveNbytes <= reftimeNbytes
      ensures ending == OutOfReadings ==> data == [] && old(clock) == []
      ensures data == [] && ending == Running ==> |clock| < |old(clock)|
    {
      n', reftime', reftimeNbytes' := n, reftime, reftimeNbytes;
      if data != [] {
        n' := ChunkStep(n, data, received);
        ending := Running;
      } else {
        assert received + data == received;
        ending, reftime', reftimeNbytes' := IdleStep(n, stopSent, reftime, reftimeNbytes, timeout, received);
      }
    }

    /** The collect loop's bookkeeping after `received` has come in, from
        the stream, file contents, count and writes at its start: the bytes
        are taken from the stream in order, all go to the file and to the
        count, and the only write is the stop's "OK\n". */
    static ghost predicate Collected(received: seq<byte>, pending: seq<seq<byte>>, stream: seq<byte>,
                              data: seq<byte>, data0: seq<byte>, nbytes: int, nbytes0: int,
                              written: seq<Written>, written0: seq<Written>, stopSent: bool)
    {
      && received + Flatten(pending) == stream
      && data == data0 + received
      && nbytes == nbytes0 + |received|
      && written == written0 + if stopSent then [WroteBytes(OkBytes)] else []
    }

    /** A pass that takes `data` from the stream and sends the stop at most
        once keeps the bookkeeping. */
    static lemma CollectedStep(received: seq<byte>, data: seq<byte>, pending: seq<seq<byte>>, pending': seq<seq<byte>>,
                               stream: seq<byte>, fileData: seq<byte>, fileData': seq<byte>, data0: seq<byte>,
                               nbytes: int, nbytes': int, nbytes0: int,
                               written: seq<Written>, written': seq<Written>, written0: seq<Written>,
                               stopSent: bool, stopSent': bool)
      requires Collected(received, pending, stream, fileData, data0, nbytes, nbytes0, written, written0, stopSent)
      requires data + Flatten(pending') == Flatten(pending)
      requires fileData' == fileData + data && nbytes' == nbytes + |data|
      requires written' == written + if stopSent' && !stopSent then [WroteBytes(OkBytes)] else []
      requires stopSent ==> stopSent'
      ensures Collected(received + data, pending', stream, fileData', data0, nbytes', nbytes0, written', written0, stopSent')
    {
      assert received + data + Flatten(pending') == received + (data + Flatten(pending'));
    }

    /** A pass of the collect loop keeps its bookkeeping. */
    method CollectPass(n: nat, stopSent: bool, reftime: int, reftimeNbytes: int, timeout: int,
                       ghost received: seq<byte>, ghost stream: seq<byte>, ghost data0: seq<byte>,
                       ghost nbytes0: int, ghost written0: seq<Written>)
      returns (n': nat, stopSent': bool, reftime': int, reftimeNbytes': int, ending: Ending, ghost received': seq<byte>)
      requires Valid() && TailHolds(responseBuffer[..], n, received)
      requires stopSent == requestStopReception && !requestAbort
      requires Collected(received, port.pending, stream, file.data, data0, sendAndReceiveNbytes, nbytes0,
                         port.written, written0, stopSent)
      modifies this`requests, this`requestAbort, this`requestStopReception, this`clock,
        this`sendAndReceiveNbytes, port`pending, port`written, file, responseBuffer
      ensures Valid() && TailHolds(responseBuffer[..], n', received')
      ensures stopSent' == requestStopReception && (requestAbort <==> ending == Aborted)
      ensures Collected(received', port.pending, stream, file.data, data0, sendAndReceiveNbytes, nbytes0,
                        port.written, written0, stopSent')
      ensures ending == Terminated ==>
        EndsWith(received', OkBytes) && (stopSent' ==> EndsWith(received', OkOkBytes))
      ensures ending == Running ==> Budget(requests, port.pending, clock) < Budget(old(requests), old(port.pending), old(clock))
    {
      var data;
      n', stopSent', reftime', reftimeNbytes', ending, data := Pass(n, stopSent, reftime, reftimeNbytes, timeout, received);
      received' := received + data;
      CollectedStep(received, data, old(port.pending), port.pending, stream, old(file.data), file.data, data0,
                    old(sendAndReceiveNbytes), sendAndReceiveNbytes, nbytes0,
                    old(port.written), port.written, written0, stopSent, stopSent');
    }

    /** The bytes sent for a non-empty `sendline`: first whatever is waiting
        is read, saved and counted, so that it is not taken for the response;
        then the line goes to the file and to the device. */
    method SendCommand(sendline: string) returns (pre: seq<byte>)
      requires IsAscii(sendline) && sendline != []
      modifies this`sendAndReceiveNbytes, port`pending, port`written, file
      ensures pre == (if old(port.pending) == [] then [] else old(port.pending)[0])
      ensures port.pending == (if old(port.pending) == [] then [] else old(port.pending)[1..])
      ensures pre + Flatten(port.pending) == Flatten(old(port.pending))
      ensures sendAndReceiveNbytes == old(sendAndReceiveNbytes) + |pre|
      ensures file.data == old(file.data) + pre + CommandLine(sendline)
      ensures port.written == old(port.written) + [WroteBytes(CommandLine(sendline))]
    {
      pre := port.ReadWaitingOrOne();
      if pre != [] {
        file.Write(pre);
        sendAndReceiveNbytes := sendAndReceiveNbytes + |pre|;
      }
      var linecr := CommandLine(sendline);
      file.Write(linecr);
      var n := port.Write(WroteBytes(linecr));
      if old(port.pending) != [] {
        assert Flatten(old(port.pending)) == old(port.pending)[0] + Flatten(old(port.pending)[1..]);
      }
    }

    /** The collect loop, from an empty tail: runs passes until one ends it. */
    method Collect(reftime: int, timeout: int) returns (ending: Ending, ghost received: seq<byte>)
      requires Valid() && !requestStopReception && !requestAbort
      modifies this`requests, this`requestAbort, this`requestStopReception, this`clock,
        this`sendAndReceiveNbytes, port`pending, port`written, file, responseBuffer
      ensures Valid()
      ensures ending != Running
      ensures received + Flatten(port.pending) == Flatten(old(port.pending))
      ensures file.data == old(file.data) + received
      ensures sendAndReceiveNbytes == old(sendAndReceiveNbytes) + |received|
      ensures port.written == old(port.written) + if requestStopReception then [WroteBytes(OkBytes)] else []
      ensures requestAbort <==> ending == Aborted
      ensures ending == Terminated ==>
        EndsWith(received, OkBytes) && (requestStopReception ==> EndsWith(received, OkOkBytes))
    {
      var n: nat, stopSent, ref, refNbytes := 0, false, reftime, 0;
      ghost var stream, data0, nbytes0, written0 := Flatten(port.pending), file.data, sendAndReceiveNbytes, port.written;
      received := [];
      ending := Running;
      while true
        invariant Valid() && TailHolds(responseBuffer[..], n, received)
        invariant stopSent == requestStopReception && !requestAbort
        invariant Collected(received, port.pending, stream, file.data, data0, sendAndReceiveNbytes, nbytes0,
                            port.written, written0, stopSent)
        decreases Budget(requests, port.pending, clock)
      {
        n, stopSent, ref, refNbytes, ending, received :=
          CollectPass(n, stopSent, ref, refNbytes, timeout, received, stream, data0, nbytes0, written0);
        if ending != Running {
          break;
        }
      }
    }

    /** `send_and_receive(sendline, timeout)`: returns the number of bytes
        received, counting any that were waiting before the command was sent.
        `pre` are those bytes and `received` the ones the loop collected. */
    method SendAndReceive(sendline: string, timeout: int)
      returns (nbytes: int, ghost ending: Ending, ghost pre: seq<byte>, ghost received: seq<byte>)
      requires Valid() && IsAscii(sendline)
      modifies this`requestStopReception, this`requestAbort, this`sendAndReceiveRunning,
        this`sendAndReceiveNbytes, this`sendAndReceiveCommandError, this`requests, this`clock,
        port`pending, port`written, file, responseBuffer
      ensures Valid()
      ensures nbytes == sendAndReceiveNbytes == |pre| + |received|
      ensures !sendAndReceiveRunning && !sendAndReceiveCommandError
      ensures ending != Running
      ensures old(clock) == [] ==>
        ending == OutOfReadings && pre == [] && received == []
        && port.pending == old(port.pending) && port.written == old(port.written) && file.data == old(file.data)
      ensures old(clock) != [] ==>
        && pre == (if sendline == [] || old(port.pending) == [] then [] else old(port.pending)[0])
        && file.data == old(file.data) + pre + CommandLine(sendline) + received
        && port.written == old(port.written)
             + (if sendline == [] then [] else [WroteBytes(CommandLine(sendline))])
             + (if requestStopReception then [WroteBytes(OkBytes)] else [])
      ensures pre + received + Flatten(port.pending) == Flatten(old(port.pending))
      ensures requestAbort <==> ending == Aborted
      ensures ending == Terminated ==>
        EndsWith(received, OkBytes) && (requestStopReception ==> EndsWith(received, OkOkBytes))
    {
      requestStopReception := false;
      requestAbort := false;
      sendAndReceiveCommandError := false;
      sendAndReceiveRunning := true;
      sendAndReceiveNbytes := 0;
      pre, received := [], [];
      var start := Time();
      if start.None? {
        ending := OutOfReadings;
      } else {
        ending, pre, received := SendCollect(sendline, start.value, timeout);
      }
      sendAndReceiveRunning := false;
      nbytes := sendAndReceiveNbytes;
    }

    /** Once the clock has been read: the command is sent when there is one,
        then the collect loop runs. */
    method SendCollect(sendline: string, reftime: int, timeout: int)
      returns (ending: Ending, ghost pre: seq<byte>, ghost received: seq<byte>)
      requires Valid() && IsAscii(sendline) && !requestStopReception && !requestAbort
      modifies this`requestStopReception, this`requestAbort, this`sendAndReceiveNbytes, this`requests, this`clock,
        port`pending, port`written, file, responseBuffer
      ensures Valid() && ending != Running
      ensures sendAndReceiveNbytes == old(sendAndReceiveNbytes) + |pre| + |received|
      ensures pre == (if sendline == [] || old(port.pending) == [] then [] else old(port.pending)[0])
      ensures file.data == old(file.data) + pre + CommandLine(sendline) + received
      ensures port.written == old(port.written)
             + (if sendline == [] then [] else [WroteBytes(CommandLine(sendline))])
             + (if requestStopReception then [WroteBytes(OkBytes)] else [])
      ensures pre + received + Flatten(port.pending) == Flatten(old(port.pending))
      ensures requestAbort <==> ending == Aborted
      ensures ending == Terminated ==>
        EndsWith(received, OkBytes) && (requestStopReception ==> EndsWith(received, OkOkBytes))
    {
      pre := [];
      if sendline != [] {
        var waiting := SendCommand(sendline);
        pre := waiting;
      }
      ghost var mid, data1 := port.pending, file.data;
      assert pre + Flatten(mid) == Flatten(old(port.pending));
      assert data1 == old(file.data) + pre + CommandLine(sendline);
      ending, received := Collect(reftime, timeout);
      assert pre + received + Flatten(port.pending) == pre + (received + Flatten(port.pending));
      assert file.data == data1 + received;
    }
  }
}
