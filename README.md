# A verified model of the mixer audio library and its code generators

This project models three parts of one repository and proves properties of
each model.

- **The mixer audio library.** This is `mixer/external/device.h` and
  `mixer/external/lib/lib.c`, a thin C layer over the Win32 `waveIn` /
  `waveOut` and `mmio` services.
  - The format macros compute a device's byte rate and block alignment.
  - `CALCULATE_BUFFSIZES_WITH_ALLOC` cuts a recording of `duration` seconds
    into chunks of at most `MAX_BUFFER_SIZE` (1000000) bytes.
  - `begin_rec` allocates one `WAVEHDR` per chunk, allocates each data
    buffer, prepares it and queues it at the input device, then starts the
    device. When an allocation fails it rolls back what it allocated.
  - `end_rec` stops and resets the device. When asked, it writes the
    recording as a RIFF `WAVE` file: a format chunk and a data chunk. When
    asked, it then unprepares and frees the buffers.
  - `read_raw` reads such a file back: the `RIFF`/`WAVE` form, the `fmt `
    chunk and the `data` chunk.
  - `play_raw`, `play_sound`, `stop` and `stop_raw` prepare, write, reset
    and unprepare headers on the output device. `dump_sound*` release the
    buffers.
  - The Win32 services are abstract classes (`Platform`):
    - the allocator keeps the set of live blocks;
    - each device keeps the log of calls it received, with the `MMRESULT`
      of each;
    - a file opened for writing keeps its open chunks and its bytes;
    - a file opened for reading keeps its bytes and its position.

    Every device result, and every result of a file opened for writing, is
    left free, and so are the reader's `Ascend`, `Close` and `MmioOpenRead`.
    Each contract therefore holds for every possible answer of the system.
    The rest of the reader is a deterministic parser over the file's bytes:
    its descents return the RIFF search of those bytes, and its read returns
    as many bytes as are asked for or remain.
- **The binary/marshall type-mapping generators.**
  - `generator/type_gen.py` parses Odin `struct` declarations line by line.
    It builds a mapping file for a chosen struct: a table of primitive sizes
    and a tree of properties. It packs the size table with
    `struct.pack("<H{n}B")`, and answers a misspelt struct name with the
    closest name by edit distance.
  - `type_gen.py` is its older, unfinished predecessor.
- **The renderdoc generators.**
  - `script/renderdoc.py` preprocesses a C header. It records each
    `#define` and substitutes the recorded macros into the other lines. It
    then reads typedefs, enums and function prototypes into a table and
    formats them as Odin declarations.
  - `script/impl/attribute_checker.py` groups the command-line tokens under
    the flags `-F`, `-If`, `-P` and `-Pf`.
  - `script/impl/main.py` collects the procedure names of the RenderDoc API
    struct and of its raw unions. Its exclusion list comes from
    `script/impl/defs.py`. It writes one aligned binding line and one
    aligned assertion line per name.

State is modelled as the source keeps it:
- the macro dictionary, the attribute slots, the output file, `Int8`, the
  heap, the devices and the mmio files are classes whose methods update
  their fields;
- loops are `while` loops, proved against recursive specification
  functions. The specification functions' own properties are proved as
  lemmas.

Fixed-width arithmetic is written out where the source has it:
- the `uint32_t` products of the format macros, modulo 2^32;
- `Int8 +=`, modulo 2^8;
- the byte `memset` stores;
- the float `ratio`, taken as an exact real.

Regular expressions that only feed the parts that are modelled are
hand-written matchers:
- `STRUCT_DEF_BEGIN` and `STRUCT_PROP_DECL`;
- `DEFINE_PATTERN`;
- `str.split`, `str.strip` and `str.replace`.

The remaining patterns are parameters of the model (see "Left out").

## Model

| member | source | states |
|---|---|---|
| AudioFormat.CalculateDeviceValues | mixer/external/device.h:40-52 | the macros write only `bytes_per_sec` and `block_align`, each within its C width (uint32, uint16); every other field is kept, and a description whose fields fit their widths still fits |
| AudioFormat.CalculateDeviceValuesIdempotent | mixer/external/device.h:40-52 | applying the macro to its own result changes nothing, because it reads no field it writes |
| AudioFormat.BytesPerSecIsRateTimesAlign | mixer/external/device.h:40-52 | `block_align` is channels times whole bytes per sample; `bytes_per_sec` is the sample rate times `block_align` modulo 2^32, and exactly that product when it fits |
| AudioFormat.CdQuality | mixer/external/device.h:40-52 | stereo 16-bit audio at 44100 Hz gives 176400 bytes per second in blocks of 4 |
| AudioFormat.BuffSize | mixer/external/device.h:316-318 | the byte count of a recording fits a uint32 |
| AudioFormat.BuffSizeIsDurationTimesRate | mixer/external/device.h:316-318 | the byte count is the duration times the byte rate that `CALCULATE_*_DEVICE_VALUES` computes, modulo 2^32 |
| AudioFormat.ToWaveFormat | mixer/external/lib/lib.c:156-162 | every `WAVEFORMATEX` field is copied from the corresponding description field |
| ChunkSizing.NumBuffers | mixer/external/device.h:306-307 | no chunks exactly when the recording is empty; otherwise n chunks with (n - 1) * MAX_BUFFER_SIZE < sz <= n * MAX_BUFFER_SIZE |
| ChunkSizing.NumBuffersIsCeiling | mixer/external/device.h:306-307 | the chunk count is the ceiling of the exact ratio sz / MAX_BUFFER_SIZE |
| ChunkSizing.NumBuffersFitsU16 | mixer/external/device.h:88-92 | for a uint32 byte count the chunk count is at most 4295, so it fits the uint16 `num_buffers` |
| ChunkSizing.IntendedSizes | mixer/external/lib/lib.c:324-330 | the sizes the caller describes: one per chunk, every one but the last is MAX_BUFFER_SIZE, the last lies in 1..MAX_BUFFER_SIZE, and they add up to the byte count |
| ChunkSizing.IntendedLast | mixer/external/device.h:313 | the last size is the byte count less the full chunks before it |
| ChunkSizing.MemsetEntryIsNotMax | mixer/external/device.h:312 | `memset` stores the low byte 0x40 of 1000000 in every byte, so each entry before the last is 0x40404040, not MAX_BUFFER_SIZE |
| ChunkSizing.LiteralLastNeverIntended | mixer/external/device.h:313 | `(ratio - num_buffers) * MAX_BUFFER_SIZE` is never positive; it is 0 exactly when the byte count is a multiple of MAX_BUFFER_SIZE, and it never equals the intended last size |
| ChunkSizing.EmptyRecordingWritesBeforeArray | mixer/external/device.h:307-313 | for an empty recording the macro writes index -1, where the intended sizing has no chunk at all |
| ChunkSizing.CalculateBuffsizesWithAlloc | mixer/external/device.h:302-314 | `num_buffers` is the chunk count of the recording and fits a uint16; on a failed `malloc` the heap is unchanged; otherwise a fresh array holds the intended sizes |
| Platform.Allocator.Malloc | mixer/external/lib/lib.c:331-340 | null with the heap unchanged, or a fresh block of n elements that joins the live set |
| Platform.Allocator.VirtualAlloc | mixer/external/lib/lib.c:280-292 | null with the heap unchanged (always for 0 bytes), or a fresh zeroed block of n bytes that joins the live set |
| Platform.Allocator.Free | mixer/external/lib/lib.c:370-371 | the block (a live one or null) leaves the live set |
| Platform.Allocator.VirtualFree | mixer/external/lib/lib.c:581-587 | succeeds exactly for a live block, which then leaves the live set |
| Platform.WaveIn.Call | mixer/external/lib/lib.c:378-382 | each call appends itself and its uint32 result to the device's log |
| Platform.WaveOut.Call | mixer/external/lib/lib.c:538-548 | each call appends itself and its uint32 result to the device's log |
| Platform.WaveInOpen | mixer/external/lib/lib.c:186-208 | a fresh device opened with the given arguments exactly when the result is 0 |
| Platform.WaveOutOpen | mixer/external/lib/lib.c:164-167 | a fresh device opened with the given arguments exactly when the result is 0 |
| Platform.PendingIsHeld | mixer/external/lib/lib.c:538-548 | a device holds a header exactly when some successful `waveInAddBuffer` or `waveOutWrite` handed it over and no successful reset or unprepare of that header came after it |
| Platform.MmioFile.CreateChunk | mixer/external/lib/lib.c:412-420 | on success a new innermost chunk is open; the bytes already written are unchanged |
| Platform.MmioFile.Write | mixer/external/lib/lib.c:437-440 | writes all the bytes into the innermost open chunk and returns their count, or writes nothing and returns -1 |
| Platform.MmioFile.SetInfo | mixer/external/lib/lib.c:422-427 | on success the bytes handed over go into the innermost open chunk |
| Platform.MmioFile.Ascend | mixer/external/lib/lib.c:430-446 | on success the innermost open chunk is closed and its serialisation (header, payload, pad byte) goes into its parent |
| Platform.MmioFile.Close | mixer/external/lib/lib.c:445 | the handle is closed and the bytes are left as they are |
| Platform.MmioOpen | mixer/external/lib/lib.c:407-454 | a fresh empty file, or null with the 32-bit `UINT` error code `wErrorRet` |
| Platform.MmioReader.DescendRiff | mixer/external/lib/lib.c:229-236 | the result is the first RIFF form of the asked type from the current position; on success the position is just past the form type |
| Platform.MmioReader.DescendChunk | mixer/external/lib/lib.c:238-245 | the result is the first chunk with the asked identifier inside the parent; on success the position is at its data |
| Platform.MmioReader.Read | mixer/external/lib/lib.c:247-301 | reads as many of n bytes as the file still holds, at the position, into the start of the buffer; the rest of the buffer is untouched |
| Platform.MmioReader.Ascend | mixer/external/lib/lib.c:263-269 | on success the position is just past the chunk and its pad byte |
| Platform.MmioOpenRead | mixer/external/lib/lib.c:222-227 | null for a missing file; otherwise a reader over the file's bytes at position 0 |
| Riff.FourCCs | mixer/external/lib/lib.c:229-278 | the identifiers `RIFF`, `WAVE`, `fmt ` and `data`, read as little-endian 32-bit numbers, are the `mmioFOURCC` codes the reader compares |
| Riff.DecodeEncodeU32 | mixer/external/lib/lib.c:443-446 | a chunk's 32-bit little-endian size field reads back as the size written |
| Riff.Pad | mixer/external/lib/lib.c:443-446 | a padded payload has even length, starts with the payload, and adds at most one byte |
| Riff.SerializeChunk | mixer/external/lib/lib.c:443-446 | a chunk takes its identifier, 4 size bytes and its padded payload |
| Riff.SerializedEven | mixer/external/lib/lib.c:443-446 | a chunk with a 4-byte identifier has even length, so the next chunk starts word-aligned |
| Riff.HeaderAt | mixer/external/lib/lib.c:229-245 | a header exists exactly when 8 bytes remain; its identifier and size are the two 32-bit numbers there |
| Riff.FindRiff | mixer/external/lib/lib.c:229-236 | a found chunk is a RIFF chunk that holds the asked form type |
| Riff.FindChunk | mixer/external/lib/lib.c:238-245 | a found chunk has the asked identifier, and its data starts inside the parent |
| Riff.FindRiffHere | mixer/external/lib/lib.c:229-236 | a form of the asked type at the current position is the result |
| Riff.FindChunkHere | mixer/external/lib/lib.c:238-245 | a chunk with the asked identifier at the current position is the result |
| Riff.FindRiffFirst | mixer/external/lib/lib.c:229-236 | a form of the asked type at any header reached by skipping whole chunks is found, and the form found is not after it |
| Riff.FindRiffOnChain | mixer/external/lib/lib.c:229-236 | the form found is a header reached by skipping whole chunks, so with `FindRiffFirst` it is the first such form |
| Riff.FindChunkFirst | mixer/external/lib/lib.c:238-245 | a chunk with the asked identifier at any header reached by skipping whole chunks inside the parent is found, and the chunk found is not after it |
| Riff.FindChunkOnChain | mixer/external/lib/lib.c:238-245 | the chunk found is a header reached by skipping whole chunks, so with `FindChunkFirst` it is the first such chunk |
| Riff.HeaderOfSerialized | mixer/external/lib/lib.c:229-245 | a chunk serialised at some position is read back there: its identifier, its size, its payload, and its end with the pad byte |
| WaveReader.FindFormat | mixer/external/lib/lib.c:229-253 | a found layout is a RIFF form with a `fmt ` chunk from which 16 bytes can be read |
| WaveReader.DecodeWave | mixer/external/lib/lib.c:215-310 | a decoded file gives the 16 `PCMWAVEFORMAT` bytes and a non-empty data payload |
| WaveReader.WithFormat | mixer/external/lib/lib.c:255-261 | the tag is forced to PCM; channels, rate, byte rate, alignment and bits are read from their offsets of the `PCMWAVEFORMAT`; `samples`, `byte_count` and `size` are kept |
| WaveReader.Completed | mixer/external/lib/lib.c:305-308 | `size` is the payload size and `samples` is that size divided, rounding down, by the whole bytes per sample; nothing else changes |
| WaveReader.ReadFormat | mixer/external/lib/lib.c:222-253 | succeeds exactly when the form and its format chunk are found, leaving the position after the 16 format bytes; any failure closes the file |
| WaveReader.LocateData | mixer/external/lib/lib.c:263-278 | ascends from the format chunk and finds the data chunk that follows it, at its data |
| WaveReader.ReadPayload | mixer/external/lib/lib.c:280-301 | the buffer holds exactly the data payload; it is null for an empty or cut-off payload or a failed allocation, and nothing then stays allocated |
| WaveReader.ReadData | mixer/external/lib/lib.c:263-303 | the file is closed; a buffer exists only when the data decodes, and it holds the payload |
| WaveReader.ReadRaw | mixer/external/lib/lib.c:215-310 | null for a missing or undecodable file, with the description unchanged or only its format copied; otherwise the buffer is the decoded payload, the format is copied, and `samples`/`size` are completed, except that a format under 8 bits per sample divides by zero |
| WaveReader.DecodeWaveFile | mixer/external/lib/lib.c:407-448 | a file laid out as `end_rec` writes it decodes to the first 16 bytes of its format payload and to its data payload |
| Playback.OpenAudioODevice | mixer/external/lib/lib.c:152-170 | a device, if opened, is opened on the description's index and format with no callback and `WAVE_FORMAT_DIRECT` |
| Playback.OpenAudioIDevice | mixer/external/lib/lib.c:172-213 | a device, if opened, is opened on the description's index and format with `CALLBACK_FUNCTION`, and with instance 0 when there is no callback |
| Playback.Play | mixer/external/lib/lib.c:538-548 | prepare; write only if the prepare succeeded; unprepare only if the write failed |
| Playback.PlayRaw | mixer/external/lib/lib.c:524-552 | nothing without a buffer or a device; otherwise a fresh header over the buffer and size is played |
| Playback.PlaySound | mixer/external/lib/lib.c:554-575 | nothing without a sound or a device; otherwise the caller's header is played |
| Playback.PlayPending | mixer/external/lib/lib.c:538-548 | after a play the device holds the header exactly when the prepare and the write both succeeded |
| Playback.Stop | mixer/external/lib/lib.c:597-600 | a reset, then an unprepare of the sound's header, whatever their results |
| Playback.StopRaw | mixer/external/lib/lib.c:602-609 | a reset, then an unprepare of a fresh header over the buffer |
| Playback.StopPending | mixer/external/lib/lib.c:597-600 | a successful reset leaves the device holding nothing; otherwise only a successful unprepare removes the header |
| Playback.PlayThenStop | mixer/external/lib/lib.c:524-600 | playing a header and then stopping with a successful reset leaves the device holding nothing |
| Playback.DumpSoundRaw | mixer/external/lib/lib.c:581-587 | the buffer leaves the live set |
| Playback.DumpSound | mixer/external/lib/lib.c:589-595 | the header's data buffer leaves the live set |
| Recorder.BeginRec | mixer/external/lib/lib.c:318-389 | the result can be handed to `end_rec`; a failure returns the empty recorder with nothing left allocated, including a failed sizes array (corrected, see "Findings"); the device is untouched when an array could not be allocated; when buffer k could not be allocated, headers 0..k-1 were armed and then freed; on success it returns `num_buffers` fresh headers with the intended sizes and a buffer each, each prepared then queued in order, then one start |
| Recorder.SizesFailureNotUsable | mixer/external/lib/lib.c:325-330 | as written, a failed sizes array returns a recorder with no buffers but `num_buffers` set to the chunk count; for a non-empty recording that recorder is not one `end_rec` can read or clean up |
| Recorder.ArmOrRollBack | mixer/external/lib/lib.c:342-388 | either every header is armed and the device started, or the loop stopped at the first failed allocation and the rollback released everything |
| Recorder.ArmBuffers | mixer/external/lib/lib.c:342-383 | the first `armed` headers point at fresh buffers of their sizes, those buffers joined the heap, and each was prepared then queued in index order |
| Recorder.ArmOne | mixer/external/lib/lib.c:352-382 | a failed allocation changes nothing; otherwise header k gets the buffer and is prepared then queued |
| Recorder.QueueHeader | mixer/external/lib/lib.c:378-381 | the device log grows by a prepare and then an add-buffer of header k, in that order |
| Recorder.Rollback | mixer/external/lib/lib.c:359-375 | the buffers of the armed headers and both arrays leave the heap |
| Recorder.StartRecording | mixer/external/lib/lib.c:385-388 | a fully armed recorder is returned after exactly one `waveInStart` |
| Recorder.WrittenAll | mixer/external/lib/lib.c:437-440 | when every write succeeds the data payload is all the buffers in index order |
| Recorder.WriteBuffers | mixer/external/lib/lib.c:437-440 | one write per header, of its `dwBufferLength` bytes; the pieces that succeeded go into the data chunk in order |
| Recorder.WriteOne | mixer/external/lib/lib.c:442 | one `mmioWrite` puts its bytes into the innermost open chunk or, when it fails, changes nothing |
| Recorder.WriteFormatChunk | mixer/external/lib/lib.c:417-431 | on success the RIFF chunk gains a complete `fmt ` chunk that holds the format bytes |
| Recorder.WriteDataChunk | mixer/external/lib/lib.c:433-443 | on success the RIFF chunk gains a complete `data` chunk that holds every written piece |
| Recorder.SaveToFile | mixer/external/lib/lib.c:410-446 | on success the closed file holds the WAVE form: the RIFF chunk of type `WAVE` with the format chunk and then the data chunk |
| Recorder.WaveFileBytes | mixer/external/lib/lib.c:411-446 | the file is the RIFF chunk whose payload is `WAVE`, then the `fmt ` chunk, then the `data` chunk |
| Recorder.Cleanup | mixer/external/lib/lib.c:458-473 | every header is unprepared in order; the buffers and both arrays leave the heap |
| Recorder.ReleaseBuffers | mixer/external/lib/lib.c:461-469 | every header is unprepared in order and every non-null buffer is released |
| Recorder.ReleaseAll | mixer/external/lib/lib.c:461-469 | the same loop over an array of headers |
| Recorder.ReleaseOne | mixer/external/lib/lib.c:462-468 | header i is unprepared and its buffer released when it is not null |
| Recorder.StopAndReset | mixer/external/lib/lib.c:401-403 | a stop; a reset only when the stop returned 0; the result is the first failure, or the reset's result |
| Recorder.SaveIfAsked | mixer/external/lib/lib.c:407-455 | no file without a path; a file that could not be opened gives `wErrorRet`; a completed save leaves the WAVE form on the file |
| Recorder.CleanupIfAsked | mixer/external/lib/lib.c:458-473 | the cleanup when asked, and no call and no release otherwise |
| Recorder.SaveThenCleanUp | mixer/external/lib/lib.c:407-475 | as written: when the file cannot be opened or a file step fails, nothing is unprepared or released, even when the cleanup was asked for |
| Recorder.SaveThenCleanUpReleasing | mixer/external/lib/lib.c:407-475 | as the cleanup flag means it: the same file, and the cleanup runs whenever it is asked, whatever happened to the file |
| Recorder.EndRec | mixer/external/lib/lib.c:396-476 | 0 and nothing done without a device; a failed stop or reset is returned at once; otherwise it does as `SaveThenCleanUp` states |
| StableSort.InsertSorted | binary/marshall/generator/type_gen.py:166 | inserting into a key-ordered sequence keeps it key-ordered |
| StableSort.SortBySorted | binary/marshall/generator/type_gen.py:166 | `sorted(xs, key=k)` is ordered by the key |
| StableSort.SortByPermutation | binary/marshall/generator/type_gen.py:166 | `sorted(xs, key=k)` is a permutation of xs |
| StableSort.SortByStable | binary/marshall/generator/type_gen.py:166 | for every key value, the elements with that key keep their original order (Python's sort is stable) |
| StableSort.FirstMin | binary/marshall/generator/type_gen.py:166-167 | the earliest position of a minimal key: no later key is smaller, and every earlier key is larger |
| StableSort.SortByHead | binary/marshall/generator/type_gen.py:166-167 | the first element after sorting is the earliest element of minimal key |
| Levenshtein.Min3 | binary/marshall/generator/type_gen.py:156 | `min` of three: no larger than any, equal to one |
| Levenshtein.LevenshteinDistance | binary/marshall/generator/type_gen.py:142-159 | the row-by-row computation returns the unit-cost edit distance, argument swap and empty-string shortcut included |
| Levenshtein.NextRow | binary/marshall/generator/type_gen.py:151-156 | from row i of the distance table, the inner loop builds row i + 1 |
| Levenshtein.StepCell | binary/marshall/generator/type_gen.py:153-156 | a cell is the minimum of an insertion, a deletion and a substitution from its three neighbours |
| Levenshtein.DistanceSymmetric | binary/marshall/generator/type_gen.py:143-144 | the distance does not depend on the order of the arguments, so the swap is harmless |
| Levenshtein.DistanceToEmpty | binary/marshall/generator/type_gen.py:146-147 | the distance to the empty string is the other string's length |
| Levenshtein.DistanceZeroIff | binary/marshall/generator/type_gen.py:142-159 | the distance is 0 exactly for equal strings |
| Levenshtein.DistanceBounds | binary/marshall/generator/type_gen.py:142-159 | the distance lies between the difference of the lengths and the longer length |
| Levenshtein.Distances | binary/marshall/generator/type_gen.py:163-165 | each candidate paired with its distance to the query, in order |
| Levenshtein.FuzzyMatchClosest | binary/marshall/generator/type_gen.py:162-167 | None exactly for no candidates; otherwise the earliest candidate at minimal distance |
| TypeGen.Int8.AddAssign | binary/marshall/generator/type_gen.py:36-38 | `+=` adds modulo 2^8, so the value stays in 0..255 |
| TypeGen.WrapAddTwice | binary/marshall/generator/type_gen.py:36-38 | two wrapping additions equal one wrapping addition of the sum |
| TypeGen.NewStructMember | binary/marshall/generator/type_gen.py:78-86 | a type in the primitive table gets a primitive of that type, sized by the table for a count of 1 and by the count otherwise; any other type gets none |
| TypeGen.MatchPropDeclCanonical | binary/marshall/generator/type_gen.py:112 | a line written `name : type,` is read as that member, with no count |
| TypeGen.MatchStructBeginCanonical | binary/marshall/generator/type_gen.py:111 | a line written `name :: struct {` is read as the header of that struct |
| TypeGen.MatchCountedFails | binary/marshall/generator/type_gen.py:112 | the counted alternative `[n]` does not match a line without a count |
| TypeGen.HeaderIsNotMember | binary/marshall/generator/type_gen.py:111-112 | no line matches both `STRUCT_DEF_BEGIN` and `STRUCT_PROP_DECL` |
| TypeGen.ClassifyAllConsistent | binary/marshall/generator/type_gen.py:111-112 | no line of a file is classified both as a header and as a member |
| TypeGen.MembersFromSpec | binary/marshall/generator/type_gen.py:122-133 | the member scan takes the run of member lines after a header in order; it reads past the end of the file (IndexError) exactly when every remaining line is a member line |
| TypeGen.ParseFromHeaderStep | binary/marshall/generator/type_gen.py:118-136 | a header line's struct is put before the parse of what follows its members, and a failing member scan fails the parse |
| TypeGen.ParseFile | binary/marshall/generator/type_gen.py:109-139 | the loops of `parse_file` compute the specification parse of the classified lines |
| TypeGen.ParseLines | binary/marshall/generator/type_gen.py:114-139 | the outer loop over classified lines computes the specification parse |
| TypeGen.CollectMembers | binary/marshall/generator/type_gen.py:122-133 | the inner loop returns the specification member scan |
| TypeGen.LineHeader | binary/marshall/generator/type_gen.py:118 | `STRUCT_DEF_BEGIN.match(line.strip())` gives the line's header classification |
| TypeGen.LineMember | binary/marshall/generator/type_gen.py:122 | `STRUCT_PROP_DECL.match(line.strip())` gives the line's member classification |
| TypeGen.StructNames | binary/marshall/generator/type_gen.py:269 | the names of the structs, in order |
| TypeGen.ParseFromHeaders | binary/marshall/generator/type_gen.py:109-139 | a successful parse yields one struct per header line, named as the header, in file order |
| TypeGen.ParseFromFirstHeader | binary/marshall/generator/type_gen.py:122 | a header whose member lines run to the end of the file makes the parse raise IndexError |
| TypeGen.FindStruct | binary/marshall/generator/type_gen.py:182-186 | the first struct of that name, and None exactly when no struct has it |
| TypeGen.VariableScan | binary/marshall/generator/type_gen.py:188-193 | appends the member's size and returns a leaf with the current `sizes_index` |
| TypeGen.VariableScanRecursive | binary/marshall/generator/type_gen.py:195-213 | the appends to `sizes` and the returned properties are those of the specification scan, and so are its exceptions |
| TypeGen.CreateMapping | binary/marshall/generator/type_gen.py:170-239 | the result is the specification mapping of the target |
| TypeGen.ScanFuelMonotone | binary/marshall/generator/type_gen.py:195-213 | a scan that does not run out of fuel gives the same result with any larger fuel |
| TypeGen.MappingFuelMonotone | binary/marshall/generator/type_gen.py:170-239 | a mapping that does not run out of fuel is the mapping for any larger fuel |
| TypeGen.LimitPathShape | binary/marshall/generator/type_gen.py:195-213 | a scan that runs out of fuel f has entered f + 1 nested struct types, each a member type of the one before |
| TypeGen.ScanLimitMeansSelfNesting | binary/marshall/generator/type_gen.py:195-213 | with at least as much fuel as parsed structs, a scan runs out only when some struct is nested in itself |
| TypeGen.MappingLimitMeansSelfNesting | binary/marshall/generator/type_gen.py:170-239 | with the driver's fuel, the mapping fails for lack of fuel only when some struct is nested in itself |
| TypeGen.NestedIndexZero | binary/marshall/generator/type_gen.py:174-209 | every property built by the nested scan has index 0, because `sizes_index` is never updated |
| TypeGen.ScanSizesAreLeaves | binary/marshall/generator/type_gen.py:188-213 | the nested scan succeeds exactly when every reached member is a primitive or a known struct, and then appends the sizes of the primitive leaves in depth-first order |
| TypeGen.TopLevelPrimitiveIndex | binary/marshall/generator/type_gen.py:215-226 | for a target of primitives only, member k becomes property k with index `len(sizes) - 1` and no children, and the size table lists their sizes |
| TypeGen.UnknownMemberRaises | binary/marshall/generator/type_gen.py:227-235 | a top-level member that is neither primitive nor a known struct raises |
| TypeGen.PackSizesRoundTrip | binary/marshall/generator/type_gen.py:251-253 | `pack("<H{n}B")` succeeds exactly when n < 2^16 and every size is below 256; the block is 2 + n bytes and reads back as the table |
| TypeGen.CheckExtension | binary/marshall/generator/type_gen.py:243-246 | the result ends with `.mrtype` |
| TypeGen.CheckExtensionIdempotent | binary/marshall/generator/type_gen.py:243-246 | the path is kept when it has the suffix and gets it otherwise, so a second call changes nothing |
| TypeGen.OpenProgramInUseTypeFile | binary/marshall/generator/type_gen.py:246-279 | a parse error, an unknown name (raised with the closest name when there is one) and a mapping error raise and touch no file; a packing error raises after `<path>.mrmap` was opened `wb+`, leaving it empty; otherwise `<path>.mrmap` holds the size block |
| Marshall.CheckMappingExtension | binary/marshall/type_gen.py:39-42 | the suffix `mr`, without a dot, is added only when absent |
| Marshall.CheckMappingExtensionIdempotent | binary/marshall/type_gen.py:39-42 | a second call adds nothing |
| Marshall.CheckTypeExtension | binary/marshall/type_gen.py:83-86 | `.mrtype` is added only when absent |
| Marshall.WriteFileMapping | binary/marshall/type_gen.py:38-45 | the file opened is the answer with the `mr` suffix, and `file.write()` without an argument raises TypeError |
| Marshall.ParseFile | binary/marshall/type_gen.py:48-51 | reads every line and returns no struct |
| Marshall.NotIn | binary/marshall/type_gen.py:29-33 | `in` over an empty list is False; over a non-empty one it calls `Struct.__eq__`, whose `assert False` raises |
| Marshall.OpenProgramInUseTypeFile | binary/marshall/type_gen.py:82-108 | with no parsed structs it always raises "struct not found", with no suggestion |
| Attributes.Store | renderdoc/script/impl/attribute_checker.py:34-35 | `attributes[type] = val` sets that slot and keeps the other three |
| Attributes.Attribute.constructor | renderdoc/script/impl/attribute_checker.py:26-32 | three empty strings and the one-element list `[""]` |
| Attributes.Attribute.At | renderdoc/script/impl/attribute_checker.py:34-35 | the slots after `at` are those of `Store` |
| Attributes.Attribute.Insert | renderdoc/script/impl/attribute_checker.py:40-41 | overwrites include entry `index` and nothing else |
| Attributes.Identify | renderdoc/script/impl/attribute_checker.py:67-72 | only the four flags name a slot, and each of them begins with `-` |
| Attributes.Feed | renderdoc/script/impl/attribute_checker.py:52-58 | IndexError exactly for the empty token; true exactly when the token begins with the character |
| Attributes.NextDash | renderdoc/script/impl/attribute_checker.py:89-90 | the inner `while` stops at the first token from k on that begins with `-`, or at the end; it raises when it meets an empty token first |
| Attributes.PySlice | renderdoc/script/impl/attribute_checker.py:93 | Python's `buf[lo:hi]`: the slice when lo <= hi, and empty when hi <= lo |
| Attributes.Prefix | renderdoc/script/impl/attribute_checker.py:78-79 | the entry starts with the folder afterwards, and is kept when it already did |
| Attributes.PrefixAll | renderdoc/script/impl/attribute_checker.py:76-79 | each include entry is prefixed on its own |
| Attributes.FileDest | renderdoc/script/impl/attribute_checker.py:74-80 | every include entry starts with the folder afterwards; entries that did are kept; the other slots and the entry count are kept |
| Attributes.FileDestIdempotent | renderdoc/script/impl/attribute_checker.py:74-80 | a second `assert_file_dest` changes nothing |
| Attributes.RunAfter | renderdoc/script/impl/attribute_checker.py:89-96 | the run of a flag at p is the tokens from p + 1 up to the next one that begins with `-` |
| Attributes.LastFlag | renderdoc/script/impl/attribute_checker.py:84-98 | the last position holding a flag for the slot, or None when there is none |
| Attributes.GroupedSlot | renderdoc/script/impl/attribute_checker.py:82-100 | under the intended grouping each slot holds the run of the last flag that names it, and keeps its value when no flag does |
| Attributes.ScanIsGrouped | renderdoc/script/impl/attribute_checker.py:82-99 | on argument lists that begin with a flag and have only known `-` tokens, the loop with its shared counter does the intended grouping |
| Attributes.AnalyzeOrderly | renderdoc/script/impl/attribute_checker.py:82-100 | `analyze_attribute_buffer` agrees with the grouping on such lists |
| Attributes.LeadingTokenLosesRun | renderdoc/script/impl/attribute_checker.py:83-98 | with a stray token first, `["x", "-F", "a"]` leaves the folder empty where the grouping gives `a` |
| Attributes.UnknownDashTokenLosesRun | renderdoc/script/impl/attribute_checker.py:83-98 | an unknown `-Z` makes the next flag's run empty: `-P b` leaves the proc slot empty |
| Attributes.AttributeChecker.constructor | renderdoc/script/impl/attribute_checker.py:60-72 | keeps the tokens and starts from fresh slots |
| Attributes.AttributeChecker.AssertFileDest | renderdoc/script/impl/attribute_checker.py:74-80 | the loop over the include entries does `FileDest` |
| Attributes.AttributeChecker.AnalyzeAttributeBuffer | renderdoc/script/impl/attribute_checker.py:82-100 | the loop computes the specification scan followed by `assert_file_dest`; when it does not raise, every include entry starts with the folder |
| Attributes.AttributeChecker.ScanRun | renderdoc/script/impl/attribute_checker.py:89-90 | the inner `while` returns `NextDash` |
| Attributes.AttributeChecker.Files | renderdoc/script/impl/attribute_checker.py:102-103 | the include-file slot |
| Attributes.AttributeChecker.ProcFile | renderdoc/script/impl/attribute_checker.py:105-106 | the proc-file slot |
| Bindings.GetStructFunctions | renderdoc/script/impl/main.py:13-25 | no names without a struct block; otherwise one name per field of the block, in order, each the prefix followed by the field name |
| Bindings.GetUnionFunctions | renderdoc/script/impl/main.py:28-37 | no names without a union block; every name is qualified by `union_name.` |
| Bindings.FirstsUpToSpec | renderdoc/script/impl/main.py:43-45 | after k names the kept list holds each name once, holds no exception, and holds all the others seen |
| Bindings.DedupeSpec | renderdoc/script/impl/main.py:43-45 | the first loop keeps every non-exception name exactly once |
| Bindings.UnionProcsAppend | renderdoc/script/impl/main.py:47-49 | each union after the next adds its names after those of the earlier unions |
| Bindings.SortByLen | renderdoc/script/impl/main.py:52 | `sorted(xs, key=len)` is a permutation ordered by length |
| Bindings.GetProcSignatures | renderdoc/script/impl/main.py:40-52 | the deduplicated struct names, then every union's names, stably sorted by length |
| Bindings.CollectUnionProcs | renderdoc/script/impl/main.py:47-49 | the second loop collects every union's names, in order |
| Bindings.KeepFirsts | renderdoc/script/impl/main.py:42-45 | the first loop keeps the first occurrence of each non-exception name |
| Bindings.ProcSignaturesSpec | renderdoc/script/impl/main.py:40-52 | the result is the struct names once each plus the union names, sorted by length, with equally long names in collection order |
| Bindings.Tabulate | renderdoc/script/impl/main.py:55-56 | `hi - lo` spaces, and none when that is not positive |
| Bindings.Column | renderdoc/script/impl/main.py:70 | a name no longer than the widest is padded to the widest length plus one |
| Bindings.LinesAt | renderdoc/script/impl/main.py:67-74 | one binding line and one assertion line per name, in order |
| Bindings.BindingTextLayout | renderdoc/script/impl/main.py:59-81 | the header, the n binding lines, a newline, the banner, the n assertion lines and the closing brace, in writing order |
| Bindings.LastIsLongest | renderdoc/script/impl/main.py:62-66 | after the sort the last name is a longest one, so `hi_tablen` is the widest length |
| Bindings.ColumnsAlign | renderdoc/script/impl/main.py:62-74 | in every binding line ` = ` starts at the same column, and so does ` != ` in every assertion line |
| Bindings.LineColumns | renderdoc/script/impl/main.py:70-73 | for a name no wider than the widest, ` = ` and ` != ` start at the fixed columns |
| Bindings.OutFile.Write | renderdoc/script/impl/main.py:77 | appends the string to what the file holds |
| Bindings.WriteBindings | renderdoc/script/impl/main.py:59-81 | raises IndexError exactly for an empty list, writing nothing; otherwise writes exactly the binding text of the sorted names |
| Bindings.BuildLines | renderdoc/script/impl/main.py:67-74 | the loop builds the binding lines and the assertion lines |
| Bindings.WriteAll | renderdoc/script/impl/main.py:76-80 | writes the lines in order |
| Bindings.BindAllStructFunctions | renderdoc/script/impl/main.py:59-81 | the binding text with `.` access to the struct's fields, or IndexError for an empty list |
| Bindings.AppendProcBindings | renderdoc/script/impl/main.py:84-106 | the binding text with `->` access and a `using` parameter, or IndexError for an empty list |
| HeaderGen.ReplaceAbsent | renderdoc/script/renderdoc.py:34-35 | `str.replace` leaves a line without the macro name unchanged |
| HeaderGen.ReplaceWhole | renderdoc/script/renderdoc.py:34-35 | a line that is exactly the macro name becomes the value |
| HeaderGen.InsertAround | renderdoc/script/renderdoc.py:34-35 | replacing the empty name puts the value before every character and at the end, as Python does |
| HeaderGen.DefineMatch | renderdoc/script/renderdoc.py:21-31 | a `DEFINE_PATTERN` match begins with `#define` and names a word |
| HeaderGen.DefineCanonical | renderdoc/script/renderdoc.py:21-32 | the line `#define NAME value` defines NAME as the stripped value |
| HeaderGen.Define | renderdoc/script/renderdoc.py:32 | `macros[name] = value` sets that entry, keeps every other one, and appends a new name at the end of the insertion order |
| HeaderGen.Defines | renderdoc/script/renderdoc.py:28-29 | the match of each line, line by line |
| HeaderGen.PreprocessCount | renderdoc/script/renderdoc.py:24-38 | every line but the define lines is kept |
| HeaderGen.PreprocessSplit | renderdoc/script/renderdoc.py:24-38 | preprocessing a + b is preprocessing a, then b with the dictionary a left; a later define never changes an earlier line |
| HeaderGen.PreprocessKeepsOrder | renderdoc/script/renderdoc.py:32-35 | names already in the dictionary keep their order, and new names only come after them |
| HeaderGen.PreprocessLastDefine | renderdoc/script/renderdoc.py:29-32 | the last define of a name gives its final value |
| HeaderGen.WalkCount | renderdoc/script/renderdoc.py:28-36 | the loop keeps one line per line that is not a define |
| HeaderGen.WalkSplit | renderdoc/script/renderdoc.py:28-36 | the loop over a + b is the loop over a followed by the loop over b |
| HeaderGen.WalkKeepsOrder | renderdoc/script/renderdoc.py:32 | the insertion order only grows at the end |
| HeaderGen.WalkKeepsValue | renderdoc/script/renderdoc.py:32 | a name that no line redefines keeps its value |
| HeaderGen.WalkLastDefine | renderdoc/script/renderdoc.py:29-32 | a define with no later define of the same name decides the final value |
| HeaderGen.MacroTable.constructor | renderdoc/script/renderdoc.py:119 | the empty dictionary |
| HeaderGen.MacroTable.Set | renderdoc/script/renderdoc.py:32 | the dictionary afterwards is `Define` of the one before |
| HeaderGen.PreprocessContent | renderdoc/script/renderdoc.py:24-38 | the result is the kept lines of the specification joined with newlines, and the caller's dictionary ends as the specification's |
| HeaderGen.PreprocessLines | renderdoc/script/renderdoc.py:28-36 | the loop computes the specification's kept lines and final dictionary |
| HeaderGen.ApplyAll | renderdoc/script/renderdoc.py:34-35 | every macro is substituted in insertion order |
| HeaderGen.PreprocessIdentity | renderdoc/script/renderdoc.py:24-38 | content without define lines comes back unchanged from an empty dictionary |
| HeaderGen.FormatParams | renderdoc/script/renderdoc.py:51 | one `name: type` piece per parameter, in order |
| HeaderGen.StripEach | renderdoc/script/renderdoc.py:100 | every piece stripped, in order |
| HeaderGen.EnumValues | renderdoc/script/renderdoc.py:100 | one value per comma-separated piece |
| HeaderGen.MapAllSpec | renderdoc/script/renderdoc.py:104-107 | the list comprehension fails exactly when one piece fails, and otherwise reads each piece in order |
| HeaderGen.EmptyParamsRaise | renderdoc/script/renderdoc.py:104-107 | a prototype with an empty parameter list raises ValueError, because `"".split(",")` is `[""]` |
| HeaderGen.SplitSpacedJoin | renderdoc/script/renderdoc.py:100 | splitting a `", "`-joined list on the comma gives the first item and then each later item after one space |
| HeaderGen.EnumValuesRoundTrip | renderdoc/script/renderdoc.py:41-43 | the values `format_enum` joins are read back by the enum branch, for values without commas or surrounding spaces |
| HeaderGen.ParamsRoundTrip | renderdoc/script/renderdoc.py:50-52 | the parameters `format_function` writes are read back by the function branch, for names and types without `,` or `:` or surrounding spaces |
| HeaderGen.LineAction | renderdoc/script/renderdoc.py:91-108 | the typedef match wins (a function-pointer typedef records a function with no parameters); then an enum, ignored when `typedef` precedes it; then a function, which raises exactly when its parameters do not read back |
| HeaderGen.ParseTableRaises | renderdoc/script/renderdoc.py:85-108 | `parse_content` raises exactly when some line raises |
| HeaderGen.ParseTableLastWins | renderdoc/script/renderdoc.py:83-108 | in the one shared dictionary each name holds the entry of the last line that records it, and names no line records keep their entry |
| HeaderGen.ParseContent | renderdoc/script/renderdoc.py:82-110 | the four returned tables are one and the same dictionary, the specification's table, and the call raises exactly when the specification does |

The `Levenshtein` module serves both generators. In `binary/marshall/type_gen.py:54-79`,
`levenshtein_distance` and `fuzzy_match` are the same as in
`binary/marshall/generator/type_gen.py:142-167`. The only difference is that the
first row is a `range` object rather than a list, and it holds the same values.

## Left out

- Device enumeration (`detect_audio_devices`, `idevices`, `odevices`, `mixer/external/lib/lib.c:6-150`): these are capability queries to the operating system that only copy what it reports.
- `play_file`, `play_file_ex`, its worker thread, and `terminate_play_file` (`mixer/external/lib/lib.c:487-522, 577-579`): they add only a thread, `Sleep` and the global `PlaySound` cancel, which are concurrency and wall-clock time.
- `close_audio_odevice` and `close_audio_idevice` (`mixer/external/lib/lib.c:478-484`): each is a single call into the device service.
- `read_sound`, which is `assert(FALSE)`, and the commented-out `is_rec` (`mixer/external/lib/lib.c:312-315, 391-394`).
- The `LOG_*` printf macros (`mixer/external/device.h:159-248`) and every `printf` and `print`: console output.
- The real Win32 `waveIn*`, `waveOut*` and `mmio*` services: they are abstract classes whose results are left free. The model therefore says nothing about what the driver does with a queued buffer.
- The lifetime of the stack-local `WAVEHDR` that `play_raw` hands to the driver: this is asynchronous driver behaviour.
- The float rounding of `ratio` (`mixer/external/device.h:306`): `ratio` is taken as the exact real `sz / MAX_BUFFER_SIZE`.
- `mmioGetInfo` in `end_rec` (`mixer/external/lib/lib.c:424-427`): the model drops the call, whose result the source never checks. The source hands the `MMIOINFO` it filled to `mmioSetInfo` with only `pchNext` and `cchBuffer` overwritten, and the model leaves the outcome of that `mmioSetInfo` free.
- The `fmt ` chunk payload in `end_rec`: it is an opaque byte parameter. The source writes nothing itself: it points `pchNext` and `cchBuffer` at the 2-byte `save.format` and calls `mmioSetInfo`, and what that leaves in the file is not defined.
- Platform.MmioReader.Read: `mmioRead`'s error result -1 is not modelled; a read always gives as many bytes as are asked for or remain, because the reader is a parser over bytes the model already holds.
- The rollback of `begin_rec`: it frees the buffers of headers that were already prepared and queued without unpreparing them or resetting the device. The model does exactly that and claims nothing more.
- Regular expressions that are not hand-written are parameters (the `Searches` datatype and the line matchers): `TYPEDEF_PATTERN`, `ENUM_PATTERN` and `FUNCTION_PATTERN` of `renderdoc/script/renderdoc.py:17-21`, and the struct, union and field searches of `renderdoc/script/impl/main.py:14-33`. Exact `re` semantics (lazy `.*?`, DOTALL) is outside the model.
- `DEFINE_PATTERN`: its `.+` is any character, because its input lines come from a split on newlines.
- `\s`, `\w` and `str.strip` cover ASCII whitespace and word characters only: the model has no Unicode tables.
- `PRIMITIVES_SIZES` is a parameter map: the `primitives` module is not part of this model.
- `Integer.__add__` (`binary/marshall/generator/type_gen.py:18-21`) refers to an undefined `CustomInteger`. `UInt16` is only a wrapper.
- TypeGen.ScanMembers, TypeGen.Mapping: the recursion through nested struct types carries a fuel bound, and running out of it (`RecursionLimit`) stands for Python's `RecursionError`. The driver passes the number of parsed structs. With that fuel, `RecursionLimit` comes only from a struct nested in itself (TypeGen.MappingLimitMeansSelfNesting), and any other result is the one every larger fuel gives (TypeGen.MappingFuelMonotone). The converse is not proved: that the source, on such a nesting, really recurses until the interpreter's recursion limit. Python's frame limit itself is not modelled.
- `input()`, `open()` and file I/O: answers and file contents are parameters, and written files are byte sequences. A failure of `open()` itself, such as a missing `.mrtype` file, is not modelled.
- `write_to_dest_file`, `parse_file(header)`, `display_results` and `main` in `renderdoc/script/renderdoc.py`, and `main` with its `FULL_SCAN` branch in `renderdoc/script/impl/main.py`: these are drivers and file I/O.
- `beekeeper/file_gen.py`: it only concatenates files.
- The demos and harnesses `mixer/external/main.c`, `play.c` (with `generate_sine_wave`, which is floating-point `sin`), `input.c` and `log_devices.c`.
- Python's dynamic typing in `at`: entries are typed, so a wrong-typed value cannot be stored.
- HeaderGen.FormatEnum, HeaderGen.FormatTypedef, HeaderGen.FormatFunction: these plain string formatters have no contract of their own. Their partners are HeaderGen.EnumValuesRoundTrip and HeaderGen.ParamsRoundTrip.
- WaveReader.ReadRaw: when `bits_per_sample / 8` is 0, the model does not crash as C's integer division by zero does. It reports the case through the `divisionByZero` flag of the result.
- The call to the undefined `create_mapping()` in `binary/marshall/type_gen.py`: it can never be reached, because the lookup before it always raises.

## Findings

| source | as written | input that shows it | evidently intended | confidence | as-written member | corrected member |
|---|---|---|---|---|---|---|
| mixer/external/device.h:312 | `memset(buffer_sizes, MAX_BUFFER_SIZE, ...)` stores the byte 0x40 in every byte | any recording longer than one chunk: every entry but the last is 0x40404040 | every entry but the last is MAX_BUFFER_SIZE | not executed | ChunkSizing.MemsetEntryIsNotMax | ChunkSizing.CalculateBuffsizesWithAlloc |
| mixer/external/device.h:313 | the last entry is `(ratio - n) * MAX_BUFFER_SIZE` with `n = ceil(ratio)` | any size: the value is never positive | the last entry is the remainder of the size, or a full chunk | not executed | ChunkSizing.LiteralLastNeverIntended | ChunkSizing.IntendedSizes |
| mixer/external/device.h:307-313 | when `sz` is 0, `n` is 0 and `buffer_sizes[n - 1]` is written | `duration` 0 | no chunk, and nothing written | not executed | ChunkSizing.EmptyRecordingWritesBeforeArray | ChunkSizing.CalculateBuffsizesWithAlloc |
| mixer/external/lib/lib.c:413-454 | a failed file open or mmio step returns before the cleanup | cleanup asked, `mmioOpen` fails | the buffers are unprepared and released whenever cleanup is asked | not executed | Recorder.SaveThenCleanUp | Recorder.SaveThenCleanUpReleasing |
| mixer/external/lib/lib.c:325-330 | `CALCULATE_BUFFSIZES_WITH_ALLOC` returns `recorder` when the sizes array cannot be allocated, after `num_buffers` is set | a non-empty recording whose sizes `malloc` fails, then `end_rec` with a path or with cleanup: it reads `buffers[0]` through a null pointer | the empty recorder, with `num_buffers` 0, as for a failed header array (lib.c:333-339) | not executed | Recorder.SizesFailureNotUsable | Recorder.BeginRec |
| renderdoc/script/impl/attribute_checker.py:83-98 | the shared `index` counter mis-delimits runs when the first flag is not at position 0 | `["x", "-F", "a"]` leaves the folder `""` | each flag takes the tokens up to the next flag | not executed | Attributes.LeadingTokenLosesRun | Attributes.GroupedSlot |
