/** Playback in mixer/external/lib/lib.c: opening the devices from a
    description, handing a buffer to the output device (`play_raw`,
    `play_sound`), taking it back (`stop`, `stop_raw`) and releasing sound
    memory (`dump_sound_raw`, `dump_sound`). Every device result is
    reported in the device's log; `Pending` reads off that log which headers
    the device still holds. */
module Playback {
  import opened Common
  import AudioFormat
  import opened Platform

  const WAVE_FORMAT_DIRECT: nat := 0x0008
  const CALLBACK_FUNCTION: nat := 0x0003_0000

  // ----- opening ---------------------------------------------------------------

  /** `open_audio_odevice`: the description's format, no callback, direct
      format; null when `waveOutOpen` fails. */
  method OpenAudioODevice(odesc: AudioFormat.DeviceDescription) returns (out: WaveOut?)
    ensures out != null ==> (fresh(out) && out.log == []
                             && out.openedWith == OpenArgs(odesc.idx, AudioFormat.ToWaveFormat(odesc), 0, 0, WAVE_FORMAT_DIRECT))
  {
    var wfx := AudioFormat.ToWaveFormat(odesc);
    var dev, result := WaveOutOpen(OpenArgs(odesc.idx, wfx, 0, 0, WAVE_FORMAT_DIRECT));
    if result != 0 {
      return null;
    }
    out := dev;
  }

  /** `open_audio_idevice`: the description's format and a function
      callback; a null callback (0) also passes instance 0. Null when
      `waveInOpen` fails. */
  method OpenAudioIDevice(idesc: AudioFormat.DeviceDescription, callback: nat, instance: nat) returns (dev: WaveIn?)
    ensures dev != null ==> (fresh(dev) && dev.log == []
                             && dev.openedWith == OpenArgs(idesc.idx, AudioFormat.ToWaveFormat(idesc),
                                                           callback, if callback == 0 then 0 else instance, CALLBACK_FUNCTION))
  {
    var wfx := AudioFormat.ToWaveFormat(idesc);
    var d, result;
    if callback == 0 {
      d, result := WaveInOpen(OpenArgs(idesc.idx, wfx, 0, 0, CALLBACK_FUNCTION));
    } else {
      d, result := WaveInOpen(OpenArgs(idesc.idx, wfx, callback, instance, CALLBACK_FUNCTION));
    }
    dev := if result == 0 then d else null;
  }

  // ----- handing a header to the output device --------------------------------------

  /** The calls `play_raw` and `play_sound` make for header `h` holding `c`:
      prepare; if that succeeded, write; if the write failed, unprepare. */
  predicate PlayCalls(calls: seq<WaveCall>, h: HeaderRef, c: SoundChunk) {
    |calls| >= 1 && calls[0].op == Prepare(h, c)
    && (calls[0].code != 0 ==> |calls| == 1)
    && (calls[0].code == 0 ==>
          |calls| >= 2 && calls[1].op == Write(h, c)
          && (calls[1].code == 0 ==> |calls| == 2)
          && (calls[1].code != 0 ==> |calls| == 3 && calls[2].op == Unprepare(h, c)))
  }

  /** The header is playing: prepared and written. */
  predicate Playing(calls: seq<WaveCall>) {
    |calls| >= 2 && calls[0].code == 0 && calls[1].code == 0
  }

  method Play(odevice: WaveOut, h: HeaderRef)
    requires h.index < h.chunks.Length
    modifies odevice
    ensures Extends(odevice.log, old(odevice.log)) && PlayCalls(Since(odevice.log, old(odevice.log)), h, h.chunks[h.index])
  {
    var code := odevice.Call(Prepare(h, h.chunks[h.index]));
    if code != 0 {
      return;
    }
    code := odevice.Call(Write(h, h.chunks[h.index]));
    if code != 0 {
      code := odevice.Call(Unprepare(h, h.chunks[h.index]));
    }
  }

  /** `play_raw`: nothing without a buffer or a device; otherwise a header
      on the stack (a fresh one-slot array, `header`) describes the buffer
      and is played. */
  method PlayRaw(odevice: WaveOut?, raw: array?<byte>, size: nat, flags: nat) returns (ghost header: Option<HeaderRef>)
    modifies odevice
    ensures raw == null || odevice == null ==> header.None? && (odevice != null ==> odevice.log == old(odevice.log))
    ensures raw != null && odevice != null ==>
      header.Some? && header.value.index == 0 && fresh(header.value.chunks)
      && Extends(odevice.log, old(odevice.log))
      && PlayCalls(Since(odevice.log, old(odevice.log)), header.value, SoundChunk(raw, size))
  {
    header := None;
    if raw != null {
      if odevice == null {
        return;
      }
      var hdr := new SoundChunk[1](_ => SoundChunk(raw, size));
      header := Some(HeaderRef(hdr, 0));
      Play(odevice, HeaderRef(hdr, 0));
    }
  }

  /** `play_sound`: the same for a header the caller owns (None for a null
      `Sound`). */
  method PlaySound(odevice: WaveOut?, sound: Option<HeaderRef>, flags: nat)
    requires sound.Some? ==> sound.value.index < sound.value.chunks.Length
    modifies odevice
    ensures sound.None? || odevice == null ==> (odevice != null ==> odevice.log == old(odevice.log))
    ensures sound.Some? && odevice != null ==>
      Extends(odevice.log, old(odevice.log))
      && PlayCalls(Since(odevice.log, old(odevice.log)), sound.value, sound.value.chunks[sound.value.index])
  {
    if sound.Some? {
      if odevice == null {
        return;
      }
      Play(odevice, sound.value);
    }
  }

  /** After the calls of a play, the device holds the header exactly when it
      is playing (a header it did not hold before). */
  lemma PlayPending(log: seq<WaveCall>, calls: seq<WaveCall>, h: HeaderRef, c: SoundChunk)
    requires PlayCalls(calls, h, c) && h !in Pending(log)
    ensures Pending(log + calls) == Pending(log) + (if Playing(calls) then {h} else {})
    ensures h in Pending(log + calls) <==> Playing(calls)
  {
    var prepare := calls[0];
    PendingAppend(log, prepare);
    var p1 := Pending(log + [prepare]);
    assert p1 == Pending(log);
    if |calls| == 1 {
      assert log + calls == log + [prepare];
    } else {
      var write := calls[1];
      assert log + calls[..2] == log + [prepare] + [write];
      PendingAppend(log + [prepare], write);
      var p2 := Pending(log + calls[..2]);
      assert p2 == (if write.code == 0 then p1 + {h} else p1);
      if |calls| == 2 {
        assert calls[..2] == calls;
      } else {
        var unprepare := calls[2];
        assert log + calls == log + calls[..2] + [unprepare];
        PendingAppend(log + calls[..2], unprepare);
        assert Pending(log + calls) == (if unprepare.code == 0 then p2 - {h} else p2);
      }
    }
  }

  // ----- taking it back --------------------------------------------------------------

  /** `stop`: reset, then unprepare the header (results ignored). */
  method Stop(odevice: WaveOut, sound: HeaderRef)
    requires sound.index < sound.chunks.Length
    modifies odevice
    ensures Extends(odevice.log, old(odevice.log))
    ensures Ops(Since(odevice.log, old(odevice.log))) == [Reset, Unprepare(sound, sound.chunks[sound.index])]
  {
    ghost var log0 := odevice.log;
    var _ := odevice.Call(Reset);
    var _ := odevice.Call(Unprepare(sound, sound.chunks[sound.index]));
    assert Since(odevice.log, log0) == odevice.log[|log0|..];
  }

  /** `stop_raw`: reset, then unprepare a fresh stack header (`header`)
      describing the buffer. */
  method StopRaw(odevice: WaveOut, buff: array?<byte>, size: nat) returns (ghost header: HeaderRef)
    modifies odevice
    ensures fresh(header.chunks) && header.index == 0 && Extends(odevice.log, old(odevice.log))
    ensures Ops(Since(odevice.log, old(odevice.log))) == [Reset, Unprepare(header, SoundChunk(buff, size))]
  {
    ghost var log0 := odevice.log;
    var _ := odevice.Call(Reset);
    var hdr := new SoundChunk[1](_ => SoundChunk(buff, size));
    header := HeaderRef(hdr, 0);
    var _ := odevice.Call(Unprepare(HeaderRef(hdr, 0), hdr[0]));
    assert Since(odevice.log, log0) == odevice.log[|log0|..];
  }

  /** After `stop`'s calls the device holds nothing when the reset
      succeeded; when it failed, at least the header is taken back if its
      unprepare succeeded. */
  lemma StopPending(log: seq<WaveCall>, calls: seq<WaveCall>, h: HeaderRef, c: SoundChunk)
    requires Ops(calls) == [Reset, Unprepare(h, c)]
    ensures calls[0].code == 0 ==> Pending(log + calls) == {}
    ensures calls[0].code != 0 ==> Pending(log + calls) == Pending(log) - (if calls[1].code == 0 then {h} else {})
  {
    var reset, unprepare := calls[0], calls[1];
    assert reset.op == Reset && unprepare.op == Unprepare(h, c);
    assert log + calls == log + [reset] + [unprepare];
    PendingAppend(log, reset);
    PendingAppend(log + [reset], unprepare);
    var p := Pending(log + [reset]);
    assert p == (if reset.code == 0 then {} else Pending(log));
    assert Pending(log + calls) == (if unprepare.code == 0 then p - {h} else p);
  }

  /** Playing a header and then stopping leaves the device holding nothing
      once the stop's reset succeeds, whatever the play's results were. */
  lemma PlayThenStop(log: seq<WaveCall>, play: seq<WaveCall>, stop: seq<WaveCall>, h: HeaderRef, c: SoundChunk)
    requires PlayCalls(play, h, c) && h !in Pending(log)
    requires Ops(stop) == [Reset, Unprepare(h, c)] && stop[0].code == 0
    ensures Pending(log + play + stop) == {}
  {
    StopPending(log + play, stop, h, c);
  }

  // ----- releasing memory ----------------------------------------------------------

  /** `dump_sound_raw`: `VirtualFree` of the buffer. */
  method DumpSoundRaw(heap: Allocator, raw: array?<byte>)
    modifies heap
    ensures heap.live == old(heap.live) - {raw}
  {
    var _ := heap.VirtualFree(raw);
  }

  /** `dump_sound`: `VirtualFree` of the header's data buffer. */
  method DumpSound(heap: Allocator, sound: HeaderRef)
    requires sound.index < sound.chunks.Length
    modifies heap
    ensures heap.live == old(heap.live) - {sound.chunks[sound.index].data}
  {
    var _ := heap.VirtualFree(sound.chunks[sound.index].data);
  }
}
