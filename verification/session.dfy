/**
 * The interaction session of the sample application: the user's
 * microphone, hold-to-talk and tap-to-talk actions, the Flic button and the
 * help request, and the dialog and call observers, as they change the
 * session flags and the microphone.
 *
 * Every handler body runs alone and to completion on the application's
 * single task queue, so each is one method here. The voice client is seen
 * only through the notifications it receives and the accept/reject answers
 * it gives, which are parameters; the microphone wrapper through its
 * streaming status.
 */
module Interaction {
  import opened Wav
  import opened TokenFile
  import opened FlicButton

  /** Recorded request sent on a keyboard tap. */
  const SkillAudioFile: string := "./inputs/Skill_test.wav"
  /** Recorded request sent on a help request. */
  const IntroAudioFile: string := "./inputs/sentai_intro.wav"

  /** The dialog states the assistant reports to its observers. */
  datatype DialogUXState = Idle | Listening | Expecting | Thinking | Speaking | Finished

  /** The call states the call manager reports to its observers. */
  datatype CallState = Connecting | InboundRinging | CallConnected | CallDisconnected | NoCall

  /** The notifications the session sends to the voice client. */
  datatype ClientNotification = HoldToTalkStart | HoldToTalkEnd | TapToTalkStart | TapToTalkEnd

  class InteractionManager {
    /** Whether a wake-word audio provider was given at construction. */
    const hasWakeWordProvider: bool

    var micOn: bool
    var holdOccurring: bool
    var tapOccurring: bool
    var callConnected: bool

    /** The microphone wrapper's isStreaming(). */
    var micStreaming: bool

    /** How many times the tap-to-talk stream's writer has been created. */
    var writerCreations: nat

    /** The samples handed to that writer, in order. */
    var streamed: seq<int16>

    /** The notifications sent to the voice client, in order. */
    var notifications: seq<ClientNotification>

    /**
     * Without a wake-word provider the microphone is never switched off
     * by the user; the writer is created at most once; a tap can only be
     * in progress once the writer exists.
     */
    ghost predicate Valid()
      reads this
    {
      && (!hasWakeWordProvider ==> micOn)
      && writerCreations <= 1
      && (tapOccurring ==> writerCreations == 1)
    }

    /** With a wake-word provider, a microphone that is on is streaming. */
    ghost predicate WakeWordMicLive()
      reads this
    {
      hasWakeWordProvider && micOn ==> micStreaming
    }

    /**
     * The constructor: no hold, tap or call, the microphone on, and the
     * microphone started when there is a wake-word provider.
     */
    constructor (hasWakeWordProvider: bool, micStreamingBefore: bool)
      ensures this.hasWakeWordProvider == hasWakeWordProvider
      ensures micOn && !holdOccurring && !tapOccurring && !callConnected
      ensures micStreaming == (hasWakeWordProvider || micStreamingBefore)
      ensures writerCreations == 0 && streamed == [] && notifications == []
      ensures Valid() && WakeWordMicLive()
    {
      this.hasWakeWordProvider := hasWakeWordProvider;
      holdOccurring, tapOccurring, callConnected, micOn := false, false, false, true;
      micStreaming := micStreamingBefore;
      writerCreations, streamed, notifications := 0, [], [];
      if hasWakeWordProvider {
        micStreaming := true;
      }
    }

    /** microphoneToggle: flips the microphone, and the streaming with it, when there is a wake-word provider. */
    method MicrophoneToggle()
      modifies this
      ensures !hasWakeWordProvider ==> unchanged(this)
      ensures hasWakeWordProvider ==> micOn == !old(micOn) && micStreaming == micOn
      ensures holdOccurring == old(holdOccurring) && tapOccurring == old(tapOccurring)
      ensures callConnected == old(callConnected)
      ensures writerCreations == old(writerCreations) && streamed == old(streamed)
      ensures notifications == old(notifications)
      ensures old(Valid()) ==> Valid()
      ensures old(WakeWordMicLive()) ==> WakeWordMicLive()
    {
      if !hasWakeWordProvider {
        return;
      }
      if micOn {
        micOn := false;
        if micStreaming {
          micStreaming := false;
        }
      } else {
        micOn := true;
        if !micStreaming && hasWakeWordProvider {
          micStreaming := true;
        }
      }
    }

    /**
     * holdToggled: with the microphone on, starts a hold if the client
     * accepts it, or ends the hold in progress and tells the client.
     */
    method HoldToggled(accepted: bool)
      modifies this
      ensures !old(micOn) ==> unchanged(this)
      ensures old(micOn) && !old(holdOccurring) ==>
        holdOccurring == accepted && notifications == old(notifications) + [HoldToTalkStart]
      ensures old(micOn) && old(holdOccurring) ==>
        !holdOccurring && notifications == old(notifications) + [HoldToTalkEnd]
      ensures micOn == old(micOn) && tapOccurring == old(tapOccurring)
      ensures callConnected == old(callConnected) && micStreaming == old(micStreaming)
      ensures writerCreations == old(writerCreations) && streamed == old(streamed)
      ensures old(Valid()) ==> Valid()
      ensures old(WakeWordMicLive()) ==> WakeWordMicLive()
    {
      if !micOn {
        return;
      }
      if !holdOccurring {
        notifications := notifications + [HoldToTalkStart];
        if accepted {
          holdOccurring := true;
        }
      } else {
        holdOccurring := false;
        notifications := notifications + [HoldToTalkEnd];
      }
    }

    /** The tap-to-talk writer is created on first use only. */
    method CreateWriterIfNeeded()
      modifies this`writerCreations
      ensures writerCreations == if old(writerCreations) == 0 then 1 else old(writerCreations)
    {
      if writerCreations == 0 {
        writerCreations := 1;
      }
    }

    /**
     * sendAudioFileAsRecognize: reads the recorded request and writes its
     * samples to the tap-to-talk stream; a file that cannot be read writes
     * nothing.
     */
    method SendAudioFileAsRecognize(files: FileSystem, audioFile: string)
      requires writerCreations > 0
      modifies this`streamed
      ensures streamed == old(streamed) + ReadAudioFromFile(files, audioFile).samples
      ensures ReadAudioFromFile(files, audioFile).errorOccurred ==> streamed == old(streamed)
    {
      var audio := ReadAudioFromFile(files, audioFile);
      streamed := streamed + audio.samples;
    }

    /**
     * The tap-to-talk start shared by tap, help and the Flic button: make
     * sure the writer exists, ask the client, and only if it accepts send
     * the recording and mark the tap as in progress.
     */
    method StartTapToTalk(files: FileSystem, audioFile: string, accepted: bool)
      modifies this
      ensures writerCreations == if old(writerCreations) == 0 then 1 else old(writerCreations)
      ensures notifications == old(notifications) + [TapToTalkStart]
      ensures tapOccurring == (old(tapOccurring) || accepted)
      ensures streamed == old(streamed) + if accepted then ReadAudioFromFile(files, audioFile).samples else []
      ensures micOn == old(micOn) && holdOccurring == old(holdOccurring)
      ensures callConnected == old(callConnected) && micStreaming == old(micStreaming)
      ensures old(Valid()) ==> Valid()
      ensures old(WakeWordMicLive()) ==> WakeWordMicLive()
    {
      CreateWriterIfNeeded();
      notifications := notifications + [TapToTalkStart];
      if accepted {
        SendAudioFileAsRecognize(files, audioFile);
        tapOccurring := true;
      }
    }

    /** The tap-to-talk end shared by tap and the Flic button. */
    method EndTapToTalk()
      modifies this
      ensures !tapOccurring && notifications == old(notifications) + [TapToTalkEnd]
      ensures micOn == old(micOn) && holdOccurring == old(holdOccurring)
      ensures callConnected == old(callConnected) && micStreaming == old(micStreaming)
      ensures writerCreations == old(writerCreations) && streamed == old(streamed)
      ensures old(Valid()) ==> Valid()
      ensures old(WakeWordMicLive()) ==> WakeWordMicLive()
    {
      tapOccurring := false;
      notifications := notifications + [TapToTalkEnd];
    }

    /**
     * tap: with the microphone on, starts a tap (sending the recorded
     * request if the client accepts) or ends the tap in progress.
     */
    method Tap(files: FileSystem, accepted: bool)
      modifies this
      ensures !old(micOn) ==> unchanged(this)
      ensures old(micOn) && !old(tapOccurring) ==>
        && tapOccurring == accepted
        && writerCreations == (if old(writerCreations) == 0 then 1 else old(writerCreations))
        && notifications == old(notifications) + [TapToTalkStart]
        && streamed == old(streamed) + if accepted then ReadAudioFromFile(files, SkillAudioFile).samples else []
      ensures old(micOn) && old(tapOccurring) ==>
        && !tapOccurring
        && writerCreations == old(writerCreations)
        && notifications == old(notifications) + [TapToTalkEnd]
        && streamed == old(streamed)
      ensures micOn == old(micOn) && holdOccurring == old(holdOccurring)
      ensures callConnected == old(callConnected) && micStreaming == old(micStreaming)
      ensures old(Valid()) ==> Valid()
      ensures old(WakeWordMicLive()) ==> WakeWordMicLive()
    {
      if !micOn {
        return;
      }
      if !tapOccurring {
        StartTapToTalk(files, SkillAudioFile, accepted);
      } else {
        EndTapToTalk();
      }
    }

    /**
     * help: whatever the microphone and the tap state, starts a tap with
     * the introduction recording.
     */
    method Help(files: FileSystem, accepted: bool)
      modifies this
      ensures writerCreations == if old(writerCreations) == 0 then 1 else old(writerCreations)
      ensures notifications == old(notifications) + [TapToTalkStart]
      ensures tapOccurring == (old(tapOccurring) || accepted)
      ensures streamed == old(streamed) + if accepted then ReadAudioFromFile(files, IntroAudioFile).samples else []
      ensures micOn == old(micOn) && holdOccurring == old(holdOccurring)
      ensures callConnected == old(callConnected) && micStreaming == old(micStreaming)
      ensures old(Valid()) ==> Valid()
      ensures old(WakeWordMicLive()) ==> WakeWordMicLive()
    {
      StartTapToTalk(files, IntroAudioFile, accepted);
    }

    /**
     * flic: with the microphone on and a non-empty access token, polls for
     * a button gesture; on one, starts a tap with the gesture's recording,
     * or ends the tap in progress. No token or no gesture changes nothing.
     */
    method Flic(tokenFile: Option<seq<string>>, bodies: seq<string>, files: FileSystem, accepted: bool)
      modifies this
      ensures !old(micOn) || TokenOf(tokenFile) == "" || PolledGesture(bodies) == NoGesture ==> unchanged(this)
      ensures old(micOn) && TokenOf(tokenFile) != "" && PolledGesture(bodies) != NoGesture ==>
        if !old(tapOccurring) then
          && tapOccurring == accepted
          && writerCreations == (if old(writerCreations) == 0 then 1 else old(writerCreations))
          && notifications == old(notifications) + [TapToTalkStart]
          && streamed == old(streamed) +
               if accepted then ReadAudioFromFile(files, AudioFileFor(PolledGesture(bodies))).samples else []
        else
          && !tapOccurring
          && writerCreations == old(writerCreations)
          && notifications == old(notifications) + [TapToTalkEnd]
          && streamed == old(streamed)
      ensures micOn == old(micOn) && holdOccurring == old(holdOccurring)
      ensures callConnected == old(callConnected) && micStreaming == old(micStreaming)
      ensures old(Valid()) ==> Valid()
      ensures old(WakeWordMicLive()) ==> WakeWordMicLive()
    {
      if !micOn {
        return;
      }
      var token := ReadTokenFromFile(tokenFile);
      if token == "" {
        return;
      }
      var gesture, _, _ := WaitForFlicGesture(bodies);
      var responseAudio := AudioFileFor(gesture);
      if |responseAudio| > 0 {
        if !tapOccurring {
          StartTapToTalk(files, responseAudio, accepted);
        } else {
          EndTapToTalk();
        }
      }
    }

    /**
     * onDialogUXStateChanged: listening starts the microphone if it is on;
     * any other state ends the tap, and stops the microphone unless a
     * wake-word provider or a connected call needs it.
     */
    method OnDialogUXStateChanged(state: DialogUXState)
      modifies this
      ensures state == Listening ==>
        micStreaming == (old(micStreaming) || micOn) && tapOccurring == old(tapOccurring)
      ensures state != Listening ==>
        !tapOccurring && micStreaming == (old(micStreaming) && (hasWakeWordProvider || callConnected))
      ensures micOn == old(micOn) && holdOccurring == old(holdOccurring)
      ensures callConnected == old(callConnected)
      ensures writerCreations == old(writerCreations) && streamed == old(streamed)
      ensures notifications == old(notifications)
      ensures old(Valid()) ==> Valid()
      ensures old(WakeWordMicLive()) ==> WakeWordMicLive()
    {
      if state == Listening {
        if micOn && !micStreaming {
          micStreaming := true;
        }
      } else {
        tapOccurring := false;
        if !hasWakeWordProvider && !callConnected && micStreaming {
          micStreaming := false;
        }
      }
    }

    /**
     * onCallStateChange: a connected call starts the microphone; any other
     * state clears the call and stops the microphone unless a wake-word
     * provider or a tap in progress needs it.
     */
    method OnCallStateChange(state: CallState)
      modifies this
      ensures state == CallConnected ==> callConnected && micStreaming
      ensures state != CallConnected ==>
        !callConnected && micStreaming == (old(micStreaming) && (hasWakeWordProvider || tapOccurring))
      ensures micOn == old(micOn) && holdOccurring == old(holdOccurring)
      ensures tapOccurring == old(tapOccurring)
      ensures writerCreations == old(writerCreations) && streamed == old(streamed)
      ensures notifications == old(notifications)
      ensures old(Valid()) ==> Valid()
      ensures old(WakeWordMicLive()) ==> WakeWordMicLive()
    {
      if state == CallConnected {
        if !micStreaming {
          micStreaming := true;
        }
        callConnected := true;
      } else {
        callConnected := false;
        if !hasWakeWordProvider && !tapOccurring && micStreaming {
          micStreaming := false;
        }
      }
    }

    /** startMicrophone: starts streaming directly, outside the task queue. */
    method StartMicrophone()
      modifies this`micStreaming
      ensures micStreaming
    {
      micStreaming := true;
    }

    /**
     * stopMicrophone: stops streaming directly, outside the task queue; it
     * is the one operation that can leave an enabled microphone silent
     * while a wake-word provider is present.
     */
    method StopMicrophone()
      modifies this`micStreaming
      ensures !micStreaming
    {
      micStreaming := false;
    }
  }
}
