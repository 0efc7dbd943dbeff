/** The flash writer over an abstract update partition, hash engine and boot selector. */
module OtaWriter {
  import opened CTypes

  datatype EspErr =
    EspOk | InvalidArg | InvalidState | InvalidSize | InvalidCrc | NotFound | EspFail | OtherError(code: nat)

  /** `flash` is what the update partition has accepted since the session was opened, `hashed` what
      the running digest has absorbed. */
  datatype Writer = Writer(
    hasPartition: bool,
    imageSize: nat,
    written: nat,
    active: bool,
    hashActive: bool,
    flash: seq<uint8>,
    hashed: seq<uint8>)

  const CLOSED := Writer(false, 0, 0, false, false, [], [])

  datatype WriterStep = WriterStep(writer: Writer, err: EspErr)

  // What the platform answers.
  datatype BeginEnv = BeginEnv(partitionSize: Option<nat>, hashSetupOk: bool, begin: EspErr)
  datatype WriteEnv = WriteEnv(write: EspErr, hashUpdateOk: bool)
  datatype FinishEnv = FinishEnv(end: EspErr, hashFinishOk: bool, setBoot: EspErr)

  function Begin(w: Writer, imageSize: nat, env: BeginEnv): WriterStep {
    if imageSize == 0 then WriterStep(w, InvalidArg)
    else if w.active then WriterStep(w, InvalidState)
    else if env.partitionSize.None? then WriterStep(w, NotFound)
    else if imageSize > env.partitionSize.value then WriterStep(w, InvalidSize)
    else if !env.hashSetupOk then WriterStep(w.(hashed := []), EspFail)
    else if env.begin != EspOk then WriterStep(w.(hashed := [], hashActive := false), env.begin)
    else WriterStep(Writer(true, imageSize, 0, true, true, [], []), EspOk)
  }

  function Write(w: Writer, data: seq<uint8>, env: WriteEnv): WriterStep {
    if data == [] then WriterStep(w, InvalidArg)
    else if !w.active then WriterStep(w, InvalidState)
    else if w.written > w.imageSize || |data| > w.imageSize - w.written then WriterStep(w, InvalidSize)
    else if env.write != EspOk then WriterStep(w, env.write)
    else
      var programmed := w.(flash := w.flash + data);
      // The bytes are in flash, but a failing digest leaves them uncounted.
      if !w.hashActive || !env.hashUpdateOk then WriterStep(programmed, EspFail)
      else WriterStep(programmed.(hashed := w.hashed + data, written := w.written + |data|), EspOk)
  }

  datatype FinishStep = FinishStep(writer: Writer, err: EspErr, booted: bool)

  /** `booted` says whether the boot partition was selected. */
  function Finish(w: Writer, digest: seq<uint8> -> seq<uint8>, expected: seq<uint8>, env: FinishEnv): FinishStep {
    if !w.active || !w.hasPartition then FinishStep(w, InvalidState, false)
    else if w.written != w.imageSize then FinishStep(w, InvalidSize, false)
    else
      var closed := w.(active := false, hashActive := false);
      if env.end != EspOk then FinishStep(closed, env.end, false)
      else if !w.hashActive || !env.hashFinishOk then FinishStep(closed, EspFail, false)
      else if digest(w.hashed) != expected then FinishStep(closed, InvalidCrc, false)
      else if env.setBoot != EspOk then FinishStep(closed, env.setBoot, false)
      else FinishStep(closed, EspOk, true)
  }

  function Abort(w: Writer, env: EspErr): WriterStep {
    if !w.active then WriterStep(w, InvalidState)
    else
      WriterStep(w.(hasPartition := false, imageSize := 0, written := 0, active := false, hashActive := false), env)
  }

  class FlashWriter {
    var hasPartition: bool
    var imageSize: nat
    var written: nat
    var active: bool
    var hashActive: bool
    var flash: seq<uint8>     // contents of the update partition
    var hashed: seq<uint8>    // input of the running digest

    function View(): Writer
      reads this
    {
      Writer(hasPartition, imageSize, written, active, hashActive, flash, hashed)
    }

    constructor ()
      ensures View() == CLOSED
    {
      hasPartition, imageSize, written := false, 0, 0;
      active, hashActive := false, false;
      flash, hashed := [], [];
    }

    method Open(size: nat, env: BeginEnv) returns (err: EspErr)
      modifies this
      ensures WriterStep(View(), err) == Begin(old(View()), size, env)
    {
      if size == 0 {
        return InvalidArg;
      }
      if active {
        return InvalidState;
      }
      if env.partitionSize.None? {
        return NotFound;
      }
      if size > env.partitionSize.value {
        return InvalidSize;
      }
      hashed := [];
      if !env.hashSetupOk {
        return EspFail;
      }
      hashActive := true;
      if env.begin != EspOk {
        hashActive := false;
        return env.begin;
      }
      hasPartition := true;
      flash := [];
      imageSize := size;
      written := 0;
      active := true;
      err := EspOk;
    }

    method WriteBytes(data: seq<uint8>, env: WriteEnv) returns (err: EspErr)
      modifies this
      ensures WriterStep(View(), err) == Write(old(View()), data, env)
    {
      if data == [] {
        return InvalidArg;
      }
      if !active {
        return InvalidState;
      }
      if written > imageSize || |data| > imageSize - written {
        return InvalidSize;
      }
      if env.write != EspOk {
        return env.write;
      }
      flash := flash + data;
      if !hashActive || !env.hashUpdateOk {
        return EspFail;
      }
      hashed := hashed + data;
      written := written + |data|;
      err := EspOk;
    }

    method Close(digest: seq<uint8> -> seq<uint8>, expected: seq<uint8>, env: FinishEnv)
      returns (err: EspErr, booted: bool)
      modifies this
      ensures FinishStep(View(), err, booted) == Finish(old(View()), digest, expected, env)
    {
      booted := false;
      if !active || !hasPartition {
        return InvalidState, false;
      }
      if written != imageSize {
        return InvalidSize, false;
      }
      active := false;
      if env.end != EspOk {
        if hashActive {
          hashActive := false;
        }
        return env.end, false;
      }
      if !hashActive || !env.hashFinishOk {
        hashActive := false;
        return EspFail, false;
      }
      hashActive := false;
      if digest(hashed) != expected {
        return InvalidCrc, false;
      }
      if env.setBoot != EspOk {
        return env.setBoot, false;
      }
      return EspOk, true;
    }

    method Drop(env: EspErr) returns (err: EspErr)
      modifies this
      ensures WriterStep(View(), err) == Abort(old(View()), env)
    {
      if !active {
        return InvalidState;
      }
      if hashActive {
        hashActive := false;
      }
      hasPartition, imageSize, written, active := false, 0, 0, false;
      err := env;
    }

    /** memset to zero; the partition itself keeps its contents. */
    method Reset()
      modifies this
      ensures View() == CLOSED.(flash := old(flash))
    {
      hasPartition, imageSize, written := false, 0, 0;
      active, hashActive := false, false;
      hashed := [];
    }
  }
}
