/** The browser objects the client reads and writes: the `window` globals,
    `document.cookie`, the text input, `navigator.mediaDevices` and the
    RecordRTC recorder. Their behaviour is reduced to what the client
    observes of it. */
module Browser {
  import opened Wrappers

  /** The constraints passed to `getUserMedia`. */
  datatype Constraints = Constraints(audio: bool, video: bool)

  /** A media stream granted for a request: the request's position in the
      sequence of requests and its constraints. */
  datatype MediaStream = MediaStream(id: nat, constraints: Constraints)

  /** `navigator.mediaDevices`. It keeps the requests it received; whether
      it grants them (the user's and the platform's answer) is fixed. */
  class MediaDevices {
    const allowed: bool
    var requests: seq<Constraints>

    constructor (allowed: bool)
      ensures this.allowed == allowed && requests == []
    {
      this.allowed := allowed;
      requests := [];
    }

    /** `getUserMedia(constraints)`: a stream, or a `NotAllowedError` rejection. */
    method GetUserMedia(c: Constraints) returns (r: Result<MediaStream, JsError>)
      modifies this`requests
      ensures requests == old(requests) + [c]
      ensures allowed ==> r == Success(MediaStream(|old(requests)|, c))
      ensures !allowed ==> r == Failure(NotAllowedError)
    {
      r := if allowed then Success(MediaStream(|requests|, c)) else Failure(NotAllowedError);
      requests := requests + [c];
    }
  }

  datatype RecorderState = Inactive | Recording | Stopped

  /** A RecordRTC recorder bound to one stream. */
  class Recorder {
    const stream: MediaStream
    const mimeType: string
    var state: RecorderState

    constructor (stream: MediaStream, mimeType: string)
      ensures this.stream == stream && this.mimeType == mimeType && state == Inactive
    {
      this.stream := stream;
      this.mimeType := mimeType;
      state := Inactive;
    }

    method StartRecording()
      modifies this`state
      ensures state == Recording
    {
      state := Recording;
    }

    method StopRecording()
      modifies this`state
      ensures state == Stopped
    {
      state := Stopped;
    }
  }

  /** The globals the client keeps on `window`, and the two read-only
      inputs it looks up: the `tenant` query parameter of the page URL
      (`searchParams.get` gives `null`, here `None`, when it is absent) and
      the build-time `TENANT_ID`. */
  class Window {
    const locationTenant: Option<string>
    const tenantId: string
    var browserFP: Option<string>
    var recording: bool
    var recorder: Recorder?

    constructor (locationTenant: Option<string>, tenantId: string)
      ensures this.locationTenant == locationTenant && this.tenantId == tenantId
      ensures browserFP == None && !recording && recorder == null
    {
      this.locationTenant := locationTenant;
      this.tenantId := tenantId;
      browserFP := None;
      recording := false;
      recorder := null;
    }
  }

  /** `document`, reduced to its cookie string. Assigning to
      `document.cookie` is modelled as replacing the string. */
  class Document {
    var cookie: string

    constructor (cookie: string)
      ensures this.cookie == cookie
    {
      this.cookie := cookie;
    }
  }

  /** An `<input>` element, reduced to its value. */
  class InputElement {
    var value: string

    constructor (value: string)
      ensures this.value == value
    {
      this.value := value;
    }
  }

  /** A keyboard event, reduced to its `code`. */
  datatype KeyboardEvent = KeyboardEvent(code: string)
}
