/** The servo controller program: at start-up it picks the serial port of the
    Arduino, then every move of the angle slider updates the current angle and
    its label and sends the angle to the board as one command frame. */
module Gripper {
  import opened Wrappers
  import opened Wire

  /** One entry of the operating system's port list: the device name
      (`p[0]`) and its human-readable description. */
  datatype PortInfo = PortInfo(device: string, description: string)

  /** The text a port's description must contain for the port to be chosen. */
  const DeviceMarker: string := "Arduino"

  /** Settings the serial port is opened with. */
  const BaudRate: nat := 115200
  const ReadTimeout: nat := 1

  /** The slider's range; it is the only caller of the slider handler. */
  const SliderMin: int := 0
  const SliderMax: int := 60

  /** Between the port name and the angle in the label; it starts with a
      full-width colon (U+FF1A). */
  const LabelInfix: string := "\U{FF1A} Servo angle: "

  /** Python's substring test `sub in s`. */
  predicate Contains(s: string, sub: string)
    ensures sub <= s ==> Contains(s, sub)
    ensures Contains(s, sub) ==> |sub| <= |s|
    decreases |s|
  {
    sub <= s || (s != [] && Contains(s[1..], sub))
  }

  /** `sub in s` holds exactly when `sub` starts at some position of `s`. */
  lemma {:induction false} ContainsAt(s: string, sub: string)
    ensures Contains(s, sub) <==> exists i :: 0 <= i <= |s| && sub <= s[i..]
    decreases |s|
  {
    assert s[0..] == s;
    if s != [] {
      ContainsAt(s[1..], sub);
      forall i | 1 <= i <= |s| ensures s[1..][i - 1..] == s[i..] { }
      if exists i :: 0 <= i <= |s| && sub <= s[i..] {
        var i :| 0 <= i <= |s| && sub <= s[i..];
        if i > 0 {
          assert sub <= s[1..][i - 1..];
        }
      }
      if sub <= s {
        assert 0 <= 0 <= |s| && sub <= s[0..];
      } else if Contains(s[1..], sub) {
        var i :| 0 <= i <= |s[1..]| && sub <= s[1..][i..];
        assert s[1..][i..] == s[i + 1..];
        assert 0 <= i + 1 <= |s| && sub <= s[i + 1..];
      }
    }
  }

  predicate Matches(p: PortInfo)
  {
    Contains(p.description, DeviceMarker)
  }

  /** Port j matches and no later port does. */
  ghost predicate IsLastMatch(ports: seq<PortInfo>, j: int)
  {
    0 <= j < |ports| && Matches(ports[j]) && forall k :: j < k < |ports| ==> !Matches(ports[k])
  }

  /** The port the scan ends up bound to: later matches overwrite earlier ones,
      so it is the last matching port, or none. */
  function LastMatch(ports: seq<PortInfo>): (r: Option<string>)
    ensures r.Some? ==> exists j :: 0 <= j < |ports| && Matches(ports[j]) && ports[j].device == r.value
    decreases |ports|
  {
    if ports == [] then None
    else if Matches(ports[|ports| - 1]) then Some(ports[|ports| - 1].device)
    else LastMatch(ports[..|ports| - 1])
  }

  lemma {:induction false} LastMatchNone(ports: seq<PortInfo>)
    ensures LastMatch(ports).None? <==> forall j :: 0 <= j < |ports| ==> !Matches(ports[j])
    decreases |ports|
  {
    if ports != [] {
      var init := ports[..|ports| - 1];
      assert forall j :: 0 <= j < |init| ==> init[j] == ports[j];
      LastMatchNone(init);
    }
  }

  lemma {:induction false} LastMatchIsLast(ports: seq<PortInfo>, j: int)
    requires IsLastMatch(ports, j)
    ensures LastMatch(ports) == Some(ports[j].device)
    decreases |ports|
  {
    if j < |ports| - 1 {
      var init := ports[..|ports| - 1];
      assert forall k :: 0 <= k < |init| ==> init[k] == ports[k];
      assert IsLastMatch(init, j);
      LastMatchIsLast(init, j);
    }
  }

  /** The start-up scan over the port list: each port whose description
      contains "Arduino" becomes the bound port, replacing any earlier one. */
  method ScanPorts(ports: seq<PortInfo>) returns (aport: Option<string>)
    ensures aport == LastMatch(ports)
    ensures aport.None? <==> forall j :: 0 <= j < |ports| ==> !Matches(ports[j])
    ensures forall j :: IsLastMatch(ports, j) ==> aport == Some(ports[j].device)
  {
    aport := None;
    for i := 0 to |ports|
      invariant aport == LastMatch(ports[..i])
    {
      var p := ports[i];
      if Contains(p.description, DeviceMarker) {
        aport := Some(p.device);
      }
      assert ports[..i + 1][..i] == ports[..i];
    }
    assert ports[..|ports|] == ports;
    LastMatchNone(ports);
    forall j | IsLastMatch(ports, j) ensures aport == Some(ports[j].device) {
      LastMatchIsLast(ports, j);
    }
  }

  /** The label text for the port name and an angle. */
  function Label(portName: string, angle: int): string
  {
    portName + LabelInfix + IntToDecimal(angle)
  }

  /** The label starts with the port name and the infix, and the rest of it
      is the angle's decimal text. */
  lemma LabelShape(portName: string, angle: int)
    ensures portName + LabelInfix <= Label(portName, angle)
    ensures Label(portName, angle)[|portName + LabelInfix|..] == IntToDecimal(angle)
  {
    var n := |portName + LabelInfix|;
    assert Label(portName, angle)[..n] == portName + LabelInfix;
  }

  /** The label shows the angle unambiguously: equal labels for one port mean
      equal angles. */
  lemma LabelInjective(portName: string, v: int, w: int)
    requires Label(portName, v) == Label(portName, w)
    ensures v == w
  {
    LabelShape(portName, v);
    LabelShape(portName, w);
    DecimalInjective(v, w);
  }

  /** With the slider at 45 the label reads "<port>： Servo angle: 45". */
  lemma LabelOf45(portName: string)
    ensures Label(portName, 45) == portName + "\U{FF1A} Servo angle: 45"
  {
  }

  /** Every angle in `vs` lies in the slider's range. */
  ghost predicate AllInSliderRange(vs: seq<int>)
    decreases |vs|
  {
    vs == [] || (SliderMin <= vs[|vs| - 1] <= SliderMax && AllInSliderRange(vs[..|vs| - 1]))
  }

  lemma {:induction false} AllInSliderRangeEach(vs: seq<int>)
    ensures AllInSliderRange(vs) <==> forall i :: 0 <= i < |vs| ==> SliderMin <= vs[i] <= SliderMax
    decreases |vs|
  {
    if vs != [] {
      var init := vs[..|vs| - 1];
      assert forall i :: 0 <= i < |init| ==> init[i] == vs[i];
      AllInSliderRangeEach(init);
    }
  }

  lemma AllInSliderRangeAppend(vs: seq<int>, v: int)
    requires AllInSliderRange(vs) && SliderMin <= v <= SliderMax
    ensures AllInSliderRange(vs + [v])
  {
    assert (vs + [v])[..|vs|] == vs;
  }

  /** The link carries exactly the frames of `sent`, all in the slider's
      range. */
  ghost predicate LinkHolds(written: seq<byte>, sent: seq<int>)
  {
    written == Frames(sent) && AllInSliderRange(sent)
  }

  /** The label shows the current angle, which is in the slider's range and
      is the last angle sent; `angles` holds its digits, or the initial [0]
      before the first send. */
  ghost predicate StateHolds(portName: string, servoValue: int, txt: string, angles: seq<byte>, sent: seq<int>)
  {
    && txt == Label(portName, servoValue)
    && SliderMin <= servoValue <= SliderMax
    && (sent == [] ==> servoValue == 0 && angles == [0])
    && (sent != [] ==> sent[|sent| - 1] == servoValue && angles == Digits(servoValue))
  }

  /** Sending angle v, already shown in the label, appends its frame and
      makes v the last angle sent. */
  lemma SendStep(portName: string, v: int, txt: string, written: seq<byte>, sent: seq<int>,
                 written': seq<byte>, sent': seq<int>)
    requires LinkHolds(written, sent) && txt == Label(portName, v)
    requires SliderMin <= v <= SliderMax
    requires written' == written + Digits(v) + [Delimiter] && sent' == sent + [v]
    ensures written' == written + Frame(v)
    ensures LinkHolds(written', sent')
    ensures StateHolds(portName, v, txt, Digits(v), sent')
    ensures DecodeStream(written') == Some(sent')
  {
    SendOneMore(sent, v, written');
    AllInSliderRangeAppend(sent, v);
  }

  /** The open serial port. Writing appends bytes to everything written so
      far; nothing is ever read back. */
  class SerialPort {
    const port: string
    const baudRate: nat
    const timeout: nat
    var written: seq<byte>

    constructor (port: string, baudRate: nat, timeout: nat)
      ensures this.port == port && this.baudRate == baudRate && this.timeout == timeout
      ensures written == []
    {
      this.port := port;
      this.baudRate := baudRate;
      this.timeout := timeout;
      written := [];
    }

    /** Writes all of `data`; returns how many bytes were written. */
    method Write(data: seq<byte>) returns (n: nat)
      modifies this
      ensures written == old(written) + data
      ensures n == |data|
    {
      written := written + data;
      n := |data|;
    }
  }

  /** The program's state after start-up: the chosen port, the current angle,
      the label text, the digits last sent and the serial link. */
  class Controller {
    const portName: string
    const arduino: SerialPort
    var servoValue: int
    var txt: string
    var angles: seq<byte>
    /** The angle of every frame written so far, in order. */
    ghost var sent: seq<int>

    /** The serial port is the chosen one, opened with the program's
        settings, and carries exactly the frames of `sent`, all in range. */
    ghost predicate Linked()
      reads this, arduino
    {
      && arduino.port == portName && arduino.baudRate == BaudRate && arduino.timeout == ReadTimeout
      && LinkHolds(arduino.written, sent)
    }

    /** The state between events: the label shows the current angle, which
        is in the slider's range and is the last angle sent, and `angles`
        holds its digits (or the initial [0] before the first send). */
    ghost predicate Valid()
      reads this, arduino
    {
      Linked() && StateHolds(portName, servoValue, txt, angles, sent)
    }

    /** The initial state: angle 0, its label, `angles` holding the single
        number 0, and the serial port opened on the chosen device. */
    constructor (portName: string)
      ensures Valid() && fresh(arduino)
      ensures this.portName == portName
      ensures servoValue == 0 && txt == Label(portName, 0) && angles == [0]
      ensures sent == [] && arduino.written == []
    {
      this.portName := portName;
      servoValue := 0;
      txt := Label(portName, 0);
      angles := [0];
      sent := [];
      arduino := new SerialPort(portName, BaudRate, ReadTimeout);
    }

    /** write_data: sends the current angle as its digits, then the
        delimiter, records the digits in `angles`, and returns 1. */
    method WriteData() returns (r: int)
      requires Linked() && txt == Label(portName, servoValue)
      requires SliderMin <= servoValue <= SliderMax
      modifies this, arduino
      ensures Valid()
      ensures r == 1
      ensures arduino.written == old(arduino.written) + Frame(servoValue)
      ensures angles == Digits(servoValue)
      ensures servoValue == old(servoValue) && txt == old(txt)
      ensures sent == old(sent) + [servoValue]
      ensures DecodeStream(arduino.written) == Some(sent)
    {
      ghost var before := arduino.written;
      var delim: seq<byte> := [Delimiter];
      var digits := Digits(servoValue);
      angles := digits;
      var n := arduino.Write(digits);
      n := arduino.Write(delim);
      SendStep(portName, servoValue, txt, before, sent, arduino.written, sent + [servoValue]);
      sent := sent + [servoValue];
      r := 1;
    }

    /** slider_event: takes the slider's angle as is (no clamping), shows it
        in the label and sends it to the board. */
    method SliderEvent(value: int)
      requires Valid()
      requires SliderMin <= value <= SliderMax
      modifies this, arduino
      ensures Valid()
      ensures servoValue == value
      ensures txt == Label(portName, value)
      ensures angles == Digits(value)
      ensures arduino.written == old(arduino.written) + Frame(value)
      ensures sent == old(sent) + [value]
      ensures DecodeStream(arduino.written) == Some(sent)
    {
      servoValue := value;
      txt := Label(portName, servoValue);
      var r := WriteData();
    }
  }

  /** Start-up: scan the ports; when none matches, the port name is never
      bound and the program stops with a NameError when it builds the label
      text, after the window is created and before the serial port is
      opened. */
  method Startup(ports: seq<PortInfo>) returns (c: Option<Controller>)
    ensures c.None? <==> forall j :: 0 <= j < |ports| ==> !Matches(ports[j])
    ensures c.Some? ==> LastMatch(ports) == Some(c.value.portName)
    ensures c.Some? ==> fresh(c.value) && fresh(c.value.arduino) && c.value.Valid()
    ensures c.Some? ==> c.value.servoValue == 0 && c.value.sent == [] && c.value.arduino.written == []
  {
    var aport := ScanPorts(ports);
    match aport
    case None =>
      c := None;
    case Some(name) =>
      var controller := new Controller(name);
      c := Some(controller);
  }
}
