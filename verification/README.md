# Interaction session of the voice-assistant sample application

This project models the logic inside the sample application's interaction
manager, `SampleApp/src/InteractionManager.cpp`. That file sits between the
user's key presses and the voice client. It has three pieces of logic:

- **The interaction session** (`session.dfy`, module `Interaction`). The
  class `InteractionManager` keeps several pieces of state:
  - the microphone-on, hold-in-progress, tap-in-progress and call-connected
    flags;
  - the microphone wrapper's streaming status;
  - the tap-to-talk stream's writer, which is created lazily;
  - a log of the samples written to that stream;
  - a log of the hold/tap notifications sent to the voice client.

  Each handler body runs alone and to completion on the application's
  single task queue, so each handler is one method. The methods' `ensures`
  clauses give the whole new state. Every handler keeps the class
  invariant `Valid()`:
  - without a wake-word provider the microphone is always on;
  - the writer is created at most once;
  - a tap is only in progress once the writer exists.

  Every handler also keeps `WakeWordMicLive()`: with a wake-word provider,
  a microphone that is on is streaming.
- **The raw WAV reader** (`wav.dfy`, module `Wav`). It skips the fixed
  44-byte RIFF/WAVE header and decodes the rest of the file as 16-bit
  little-endian PCM. The source copies the raw bytes into `int16_t`
  storage, so this is the reading on a little-endian host. The decoder is
  proved to round-trip with an encoder, sample by sample and for whole
  files. A file of 44 bytes or fewer, or one that cannot be opened, gives
  the error flag and no samples.
- **String utilities** (`token.dfy`, module `TokenFile`; `flic.dfy`, module
  `FlicButton`):
  - The access-token reader. It right-trims `" \n\r\t"` from each line,
    concatenates the lines and trims once more. Its `getline` loop is a
    method proved equal to a fold over the lines. The final trim is proved
    never to remove anything, because each trimmed line already ends clean.
  - The Flic button's response classifier and curl's write callback.
  - The polling loop, with the network replaced by the sequence of poll
    bodies. It accumulates every poll into one response string and stops
    at the first gesture.

## Model

| member | source | states |
|---|---|---|
| Wav.DecodeSample | SampleApp/src/InteractionManager.cpp:51 | a sample is the two's-complement value whose 16-bit pattern is low byte + 256 × high byte; it is negative exactly when the high byte is 0x80 or more |
| Wav.EncodeSample | SampleApp/src/InteractionManager.cpp:51 | the two bytes that store a sample; decoding them gives the sample back |
| Wav.EncodeDecodeSample | SampleApp/src/InteractionManager.cpp:51 | decoding is injective: re-encoding a decoded sample gives back the same two bytes |
| Wav.DecodePcm | SampleApp/src/InteractionManager.cpp:478-482 | a byte run decodes to exactly half as many samples (rounded down); sample i comes from bytes 2i and 2i+1 |
| Wav.EncodePcm | SampleApp/src/InteractionManager.cpp:51 | the byte image of n samples is 2n bytes long |
| Wav.DecodeEncodePcm | SampleApp/src/InteractionManager.cpp:478-482 | decoding the byte image of any samples gives those samples back |
| Wav.EncodeDecodePcm | SampleApp/src/InteractionManager.cpp:478-482 | re-encoding decoded samples gives back the bytes without a trailing odd byte |
| Wav.ReadAudioFromFile | SampleApp/src/InteractionManager.cpp:455-497 | error iff the file is missing or at most 44 bytes long; on error no samples; otherwise (length − 44) / 2 samples, each decoded from its byte pair after the header, with the error flag cleared |
| Wav.ReadAudioRoundTrip | SampleApp/src/InteractionManager.cpp:455-497 | any 44-byte header followed by the image of a non-empty sample sequence reads back as exactly those samples with no error |
| Wav.OneByteBodyIsEmptySuccess | SampleApp/src/InteractionManager.cpp:468-496 | a 45-byte file is not an error but yields no sample (in a build where the zero-length read into the empty vector at line 482 does nothing) |
| TokenFile.FindLastNotOf | SampleApp/src/InteractionManager.cpp:440 | the index of the last non-blank character, or npos (-1) when there is none; everything after it is blank |
| TokenFile.RightTrim | SampleApp/src/InteractionManager.cpp:440 | the result is a prefix of the input, ends in a non-blank or is empty, and only blanks were removed |
| TokenFile.RightTrimUnique | SampleApp/src/InteractionManager.cpp:440 | those three properties determine the trimmed string |
| TokenFile.RightTrimIdempotent | SampleApp/src/InteractionManager.cpp:447 | trimming twice is trimming once |
| TokenFile.RightTrimBlank | SampleApp/src/InteractionManager.cpp:440 | a line of blanks trims to the empty string |
| TokenFile.TokenOf | SampleApp/src/InteractionManager.cpp:429-451 | a file that cannot be opened gives ""; the token never ends in a blank |
| TokenFile.JoinTrimmed | SampleApp/src/InteractionManager.cpp:438-443 | the concatenation of the trimmed lines never ends in a blank |
| TokenFile.FinalTrimIsRedundant | SampleApp/src/InteractionManager.cpp:447 | the final erase leaves the concatenated token unchanged |
| TokenFile.JoinTrimmedAppend | SampleApp/src/InteractionManager.cpp:438-443 | the token of two runs of lines is the concatenation of their tokens |
| TokenFile.BlankLineContributesNothing | SampleApp/src/InteractionManager.cpp:438-443 | inserting an all-blank line anywhere does not change the token |
| TokenFile.ReadTokenFromFile | SampleApp/src/InteractionManager.cpp:429-451 | the getline loop with its per-line and final erase computes exactly the fold TokenOf |
| FlicButton.Contains | SampleApp/src/InteractionManager.cpp:376-382 | `find(pattern) != npos` only when the pattern is no longer than the string |
| FlicButton.ContainsIffOccurs | SampleApp/src/InteractionManager.cpp:376-382 | `find(pattern) != npos` holds exactly when the pattern occurs at some index |
| FlicButton.ClassifyFlic | SampleApp/src/InteractionManager.cpp:374-384 | a single click iff " click" occurs; a double click iff " click" does not occur and "double_click" does; a hold iff neither occurs and "hold" does; no gesture iff none of the three occurs |
| FlicButton.ContainsAppend | SampleApp/src/InteractionManager.cpp:318-321 | appending to the response never removes an occurrence of a pattern |
| FlicButton.FirstCharAbsent | SampleApp/src/InteractionManager.cpp:376 | a pattern whose first character the string lacks is not found |
| FlicButton.GestureStaysFound | SampleApp/src/InteractionManager.cpp:376-384 | once the accumulated response names a gesture, any extension still names one, and a single click stays a single click |
| FlicButton.DoubleClickIsNotSingleClick | SampleApp/src/InteractionManager.cpp:376-381 | any response without spaces that contains "double_click" is a double click: the single-click pattern needs a leading space, so it cannot match |
| FlicButton.AudioFileFor | SampleApp/src/InteractionManager.cpp:374-386 | the recording chosen for a gesture is non-empty exactly when there is a gesture |
| FlicButton.WriteFunction | SampleApp/src/InteractionManager.cpp:318-321 | the old response is kept as a prefix, the first size × nmemb bytes of the chunk follow it, and that count is returned |
| FlicButton.Concat | SampleApp/src/InteractionManager.cpp:331-371 | the one response string after a run of polls; no poll's body is longer than it |
| FlicButton.ConcatPrefix | SampleApp/src/InteractionManager.cpp:318-321 | the response string only grows: its value after any earlier poll is a prefix of its value after a later one |
| FlicButton.PollsNeeded | SampleApp/src/InteractionManager.cpp:355-424 | the number of polls made: none before it names a gesture, and if it names none then all polls were used |
| FlicButton.WaitForFlicGesture | SampleApp/src/InteractionManager.cpp:355-424 | the polling loop makes PollsNeeded polls, its response string is the concatenation of their bodies, and its gesture is that string's classification |
| FlicButton.NoGestureMeansNoneInAnyPrefix | SampleApp/src/InteractionManager.cpp:331-384 | if the whole accumulated response names no gesture, no earlier accumulated response does |
| FlicButton.PollsNeededUnique | SampleApp/src/InteractionManager.cpp:355-424 | the loop's stopping rule (no gesture before the count, and a gesture at it unless the polls ran out) fixes the count: it is PollsNeeded |
| FlicButton.PolledGesture | SampleApp/src/InteractionManager.cpp:355-424 | the loop ends without a gesture exactly when the concatenation of all polls names none |
| Interaction.InteractionManager.constructor | SampleApp/src/InteractionManager.cpp:124-131 | hold, tap and call are false and the mic is on; the mic is started iff a wake-word provider is present; both invariants hold |
| Interaction.InteractionManager.MicrophoneToggle | SampleApp/src/InteractionManager.cpp:259-278 | without a wake-word provider nothing changes; otherwise the mic flag flips and streaming equals the new flag; hold, tap, call, writer and logs are unchanged |
| Interaction.InteractionManager.HoldToggled | SampleApp/src/InteractionManager.cpp:280-295 | with the mic off nothing changes; otherwise the client is notified of a start and hold becomes its answer, or a hold ends with an end notification; tap and the microphone are untouched |
| Interaction.InteractionManager.CreateWriterIfNeeded | SampleApp/src/InteractionManager.cpp:304-306 | the writer is created only when none exists |
| Interaction.InteractionManager.SendAudioFileAsRecognize | SampleApp/src/InteractionManager.cpp:499-505 | the stream receives exactly the samples the reader returns, so nothing on a read error |
| Interaction.InteractionManager.StartTapToTalk | SampleApp/src/InteractionManager.cpp:303-310 | the writer exists afterwards; the client is notified; only an accepted start sends the recording and sets the tap flag |
| Interaction.InteractionManager.EndTapToTalk | SampleApp/src/InteractionManager.cpp:311-314 | the tap flag is cleared and the client is told the tap ended |
| Interaction.InteractionManager.Tap | SampleApp/src/InteractionManager.cpp:297-316 | with the mic off nothing changes; otherwise a tap starts (set iff accepted, skill recording sent iff accepted, writer created lazily) or the tap in progress ends |
| Interaction.InteractionManager.Help | SampleApp/src/InteractionManager.cpp:144-155 | regardless of mic or tap state, a tap starts with the introduction recording, set iff the client accepts |
| Interaction.InteractionManager.Flic | SampleApp/src/InteractionManager.cpp:323-427 | with the mic off, an empty token or no gesture nothing changes; otherwise the tap rule runs with the gesture's recording |
| Interaction.InteractionManager.OnDialogUXStateChanged | SampleApp/src/InteractionManager.cpp:692-708 | listening starts the mic iff it is on and leaves tap alone; any other state clears tap and stops the mic iff there is no wake-word provider and no connected call |
| Interaction.InteractionManager.OnCallStateChange | SampleApp/src/InteractionManager.cpp:710-727 | a connected call sets the flag and leaves the mic streaming; any other state clears the flag and stops the mic iff there is no wake-word provider and no tap in progress |
| Interaction.InteractionManager.StartMicrophone | SampleApp/src/InteractionManager.cpp:1046-1048 | the microphone is streaming afterwards |
| Interaction.InteractionManager.StopMicrophone | SampleApp/src/InteractionManager.cpp:1050-1052 | the microphone is silent afterwards; this can break WakeWordMicLive |

Where a general reading of the session and the code differ, the model
follows the code. Toggling the microphone while it is on turns it off, and
toggling hold while a hold is in progress ends the hold. Neither is a no-op.

## Left out

- The task queue, its futures, the `.get()`/`.wait()` calls and the blocking
  barrier in `resetDevice` are concurrency. Each handler body is one atomic
  method instead.
- The voice client's decision to accept or reject a hold or tap start is
  foreign code. It is the `accepted` parameter.
- The HTTP requests to the push-notification service are network I/O. This
  covers the initial and final DELETE requests, the headers and the
  30-second timeout. The bodies of the polls made within the time budget are
  the `bodies` parameter. A poll whose curl handle could not be created
  appends nothing, so it is an empty body.
- Real file I/O. Audio files are a map from name to bytes, and a missing
  name is a file that cannot be opened. The token file is the sequence of
  lines `getline` yields, or `None`; splitting the bytes into lines is not
  modelled. The token file is opened with the `out` flag (line 435), that
  is in read-and-write mode, so a file that exists but is not writable
  cannot be opened either; `None` covers that case too and gives "".
- Wav.ReadAudioFromFile: does not model a short read, because the whole
  byte contents are given at once. It also does not model the 32-bit `int`
  that holds the file length, which would misbehave for files of 2 GiB or
  more. A null error pointer is not modelled, since the only caller passes
  one. A 45-byte file makes the source take `&retVal[0]` of an empty
  vector (line 482), which is undefined behaviour and aborts in a build
  with checked containers; the model gives the unchecked outcome, no
  samples and no error. The samples are decoded as little-endian, while
  the source copies raw bytes, so on a big-endian host its samples would
  be byte-swapped.
- The writer's own `write` behaviour (a non-blocking writer may drop data)
  is foreign code. `streamed` records what was handed to it.
- In the source the tap-to-talk writer is a file-scope global shared by
  every manager. Here it is state of the one manager.
- The enumerators of the dialog and call states come from headers that are
  not part of this model. Only LISTENING and CALL_CONNECTED are told apart,
  which is all the handlers do.
- Interaction.InteractionManager.constructor, MicrophoneToggle,
  OnDialogUXStateChanged, OnCallStateChange: starting and stopping the
  microphone are assumed to succeed. `micStreaming` stands for the wrapper's `isStreaming()`, taken
  to equal the last start or stop this file issued. `WakeWordMicLive` and
  the streaming clause of OnCallStateChange rest on that assumption.
- The microphone wrapper's state before construction is foreign. It is the
  constructor's `micStreamingBefore` parameter.
- Every console or UI print, and `begin`, which only prints, are
  presentational.
- These operations only forward to collaborators whose code is not part of
  this model:
  - playback buttons and toggles;
  - volume and mute;
  - settings setters;
  - capability-controller setters;
  - comms, phone, meeting and calendar senders;
  - diagnostics;
  - audio injection (`injectWavFile`, which asks the client for a tap
    without touching the session flags);
  - protocol tracing;
  - `stopForegroundActivity`;
  - `resetDevice`;
  - `doShutdown`.
