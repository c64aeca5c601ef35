/** The balance test: while it runs, the accelerometer is recorded, and the
    gyroscope too when the gait test is enabled; completing or cancelling the
    test stops and releases whatever was started. The capture recorders
    themselves are not part of this model: each is an object that records,
    in order, the calls the test makes on it. */
module BalanceTesting {
  import opened TestConfigs

  datatype CaptureKind = Accel | Gyro
  datatype CaptureCall = StartRecording | StopRecording | Destroy

  /** An accelerometer or gyroscope recorder, seen through the calls made on it. */
  class Capture {
    const kind: CaptureKind
    var calls: seq<CaptureCall>

    constructor (kind: CaptureKind)
      ensures this.kind == kind && calls == []
    {
      this.kind := kind;
      calls := [];
    }

    method Call(c: CaptureCall)
      modifies this`calls
      ensures calls == old(calls) + [c]
    {
      calls := calls + [c];
    }
  }

  /** Stops a capture, then releases it. */
  method StopAndDestroy(capture: Capture)
    modifies capture`calls
    ensures capture.calls == old(capture.calls) + [StopRecording, Destroy]
  {
    capture.Call(StopRecording);
    capture.Call(Destroy);
  }

  class BalanceTestConfig {
    const testName: TestName
    const preTestPauseDur: int
    const postTestPauseDur: int
    const testCaptureDur: int
    const preTestVibrate: bool
    const postTestVibrate: bool
    const helpLink: string
    var accelObj: Capture?
    var gyroObj: Capture?

    /** Each capture slot holds a recorder of its own sensor, so the two are
        never the same object. */
    ghost predicate Valid()
      reads this
    {
      (accelObj != null ==> accelObj.kind == Accel) &&
      (gyroObj != null ==> gyroObj.kind == Gyro)
    }

    /** The inherited defaults, with a longer pause before the test and a
        vibration at its start and end; no capture yet. */
    constructor ()
      ensures Valid()
      ensures testName == TestBalance
      ensures preTestPauseDur == 5
      ensures postTestPauseDur == DefaultPostTestPauseDur && testCaptureDur == DefaultTestCaptureDur
      ensures preTestVibrate && postTestVibrate
      ensures helpLink == "https://youtu.be/xwJsLGdlhsE"
      ensures accelObj == null && gyroObj == null
    {
      testName := TestBalance;
      preTestPauseDur := 5;
      postTestPauseDur := DefaultPostTestPauseDur;
      testCaptureDur := DefaultTestCaptureDur;
      preTestVibrate := true;
      postTestVibrate := true;
      helpLink := "https://youtu.be/xwJsLGdlhsE";
      accelObj := null;
      gyroObj := null;
    }

    /** Starts a new accelerometer capture, and a new gyroscope capture when
        `gyroOn`; without it the gyroscope slot keeps whatever it held. */
    method RunTest(gyroOn: bool)
      requires Valid()
      modifies this`accelObj, this`gyroObj
      ensures Valid()
      ensures accelObj != null && fresh(accelObj) && accelObj.calls == [StartRecording]
      ensures gyroOn ==> gyroObj != null && fresh(gyroObj) && gyroObj.calls == [StartRecording]
      ensures !gyroOn ==> gyroObj == old(gyroObj)
    {
      accelObj := new Capture(Accel);
      accelObj.Call(StartRecording);
      if gyroOn {
        gyroObj := new Capture(Gyro);
        gyroObj.Call(StartRecording);
      }
    }

    /** Stops and releases the accelerometer capture if there is one, and the
        gyroscope capture if there is one and `gyroOn`. The slots keep their
        (now released) captures. */
    method CompleteTest(gyroOn: bool)
      requires Valid()
      modifies accelObj, if gyroOn then gyroObj else null
      ensures accelObj != null ==> accelObj.calls == old(accelObj.calls) + [StopRecording, Destroy]
      ensures gyroOn && gyroObj != null ==> gyroObj.calls == old(gyroObj.calls) + [StopRecording, Destroy]
      ensures !gyroOn && gyroObj != null ==> gyroObj.calls == old(gyroObj.calls)
    {
      if accelObj != null {
        StopAndDestroy(accelObj);
      }
      if gyroOn && gyroObj != null {
        StopAndDestroy(gyroObj);
      }
    }

    /** Cancelling has exactly the effect of completing. */
    method CancelTest(gyroOn: bool)
      requires Valid()
      modifies accelObj, if gyroOn then gyroObj else null
      ensures accelObj != null ==> accelObj.calls == old(accelObj.calls) + [StopRecording, Destroy]
      ensures gyroOn && gyroObj != null ==> gyroObj.calls == old(gyroObj.calls) + [StopRecording, Destroy]
      ensures !gyroOn && gyroObj != null ==> gyroObj.calls == old(gyroObj.calls)
    {
      if accelObj != null {
        StopAndDestroy(accelObj);
      }
      if gyroOn && gyroObj != null {
        StopAndDestroy(gyroObj);
      }
    }
  }

  /** One balance test from the test list: the gyroscope switch is the one the
      enabled-test computation set from the gait preference. A test that runs
      and completes leaves its accelerometer capture started, stopped and
      released, and its gyroscope capture likewise exactly when the switch is on. */
  method RunAndComplete(statics: TestConfigStatics, config: BalanceTestConfig)
    requires config.Valid()
    modifies config
    ensures config.accelObj != null && config.accelObj.calls == [StartRecording, StopRecording, Destroy]
    ensures statics.gyroOn ==> config.gyroObj != null && config.gyroObj.calls == [StartRecording, StopRecording, Destroy]
    ensures !statics.gyroOn ==> config.gyroObj == old(config.gyroObj)
  {
    config.RunTest(statics.gyroOn);
    config.CompleteTest(statics.gyroOn);
  }

  /** Completing or cancelling a test that never ran touches no capture. */
  method CancelBeforeRun(gyroOn: bool) returns (config: BalanceTestConfig)
    ensures config.accelObj == null && config.gyroObj == null
  {
    config := new BalanceTestConfig();
    config.CancelTest(gyroOn);
    config.CompleteTest(gyroOn);
  }
}
