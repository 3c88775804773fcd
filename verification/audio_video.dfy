/** src/audioVideo.js: asking for the microphone, and starting and
    stopping the recording kept in `window.RECORDER` and
    `window.RECORDING`. */
module AudioVideo {
  import opened Wrappers
  import opened Browser

  /** The constraints `getDeviceAccess(audio, video)` asks for; an
      argument left `undefined` (`None`) takes its default, audio on and
      video off. */
  function DeviceConstraints(audio: Option<bool>, video: Option<bool>): (c: Constraints)
    ensures audio.Some? ==> c.audio == audio.value
    ensures video.Some? ==> c.video == video.value
    ensures audio.None? ==> c.audio
    ensures video.None? ==> !c.video
  {
    Constraints(audio.GetOr(true), video.GetOr(false))
  }

  /** `getDeviceAccess(audio, video)`. */
  method GetDeviceAccess(devices: MediaDevices, audio: Option<bool>, video: Option<bool>)
    returns (r: Result<MediaStream, JsError>)
    modifies devices`requests
    ensures devices.requests == old(devices.requests) + [DeviceConstraints(audio, video)]
    ensures devices.allowed ==> r == Success(MediaStream(|old(devices.requests)|, DeviceConstraints(audio, video)))
    ensures !devices.allowed ==> r == Failure(NotAllowedError)
  {
    r := devices.GetUserMedia(DeviceConstraints(audio, video));
  }

  /** `startAudioRecording()`. Nothing on `window` changes until the
      microphone is granted; a refusal rejects with the platform's error.
      `RECORDING` is not consulted, so a running recorder is replaced. */
  method StartAudioRecording(w: Window, devices: MediaDevices) returns (o: Outcome<JsError>)
    modifies w`recorder, w`recording, devices`requests
    ensures devices.requests == old(devices.requests) + [Constraints(true, false)]
    ensures devices.allowed ==>
      && o == Pass && w.recording && w.recorder != null && fresh(w.recorder)
      && w.recorder.state == Recording && w.recorder.mimeType == "audio/webm"
      && w.recorder.stream == MediaStream(|old(devices.requests)|, Constraints(true, false))
    ensures !devices.allowed ==>
      o == Fail(NotAllowedError) && w.recorder == old(w.recorder) && w.recording == old(w.recording)
  {
    var stream := GetDeviceAccess(devices, Some(true), Some(false));
    if stream.Failure? {
      o := Fail(stream.error);
      return;
    }
    var recorder := new Recorder(stream.value, "audio/webm");
    w.recorder := recorder;
    w.recording := true;
    recorder.StartRecording();
    o := Pass;
  }

  /** `stopAudioRecording()`, where `captured` is what the recorder's blob
      holds. With `RECORDER` null the call throws a `TypeError` before
      anything changes. Otherwise the recorder stops, `RECORDING` becomes
      false, `RECORDER` still refers to the stopped recorder, and the
      bytes are returned. */
  method StopAudioRecording(w: Window, captured: seq<bv8>) returns (r: Result<seq<bv8>, JsError>)
    modifies w`recording, w.recorder
    ensures old(w.recorder) == null ==> r == Failure(TypeError) && w.recording == old(w.recording)
    ensures old(w.recorder) != null ==>
      r == Success(captured) && !w.recording && w.recorder.state == Stopped
    ensures w.recorder == old(w.recorder)
  {
    var recorder := w.recorder;
    if recorder == null {
      r := Failure(TypeError);
      return;
    }
    recorder.StopRecording();
    w.recording := false;
    r := Success(captured);
  }
}
