/** The MIDI output port of a Launchpad (RtMidi's MidiOutPort), reduced to the
    messages the scripts send on channel 0 and the colour each pad or button
    shows as a result. */
module LaunchpadMidi {

  /** A MIDI data byte as C#'s `byte`. */
  type Byte = b: int | 0 <= b < 256

  /** The C# cast `(byte)v`: the low eight bits of `v`. */
  function ToByte(v: int): (b: Byte)
    ensures 0 <= v < 256 ==> b == v
  {
    if 0 <= v < 256 then v else v % 256
  }

  /** A message sent on channel 0: a Note On lights the pad or right-column
      button `note` with colour `velocity`, a Control Change lights the top
      button `control` with colour `value`. */
  datatype Message =
    | NoteOn(note: Byte, velocity: Byte)
    | ControlChange(control: Byte, value: Byte)

  /** The colour every note shows after `log`: the velocity of the last
      Note On sent to it; notes that were never sent anything are absent. */
  function NoteColours(log: seq<Message>): (r: map<int, int>)
    ensures forall n :: n in r ==> 0 <= n < 256 && 0 <= r[n] < 256
  {
    if log == [] then map[]
    else
      var rest := NoteColours(log[..|log| - 1]);
      match log[|log| - 1]
      case NoteOn(note, velocity) => rest[note := velocity]
      case ControlChange(_, _) => rest
  }

  /** The colour every top button shows after `log`. */
  function ControlValues(log: seq<Message>): (r: map<int, int>)
    ensures forall n :: n in r ==> 0 <= n < 256 && 0 <= r[n] < 256
  {
    if log == [] then map[]
    else
      var rest := ControlValues(log[..|log| - 1]);
      match log[|log| - 1]
      case NoteOn(_, _) => rest
      case ControlChange(control, value) => rest[control := value]
  }

  /** Sending one more message changes the shown colour of its target only. */
  lemma ColoursAfterSend(log: seq<Message>, m: Message)
    ensures m.NoteOn? ==> NoteColours(log + [m]) == NoteColours(log)[m.note := m.velocity]
    ensures m.NoteOn? ==> ControlValues(log + [m]) == ControlValues(log)
    ensures m.ControlChange? ==> NoteColours(log + [m]) == NoteColours(log)
    ensures m.ControlChange? ==> ControlValues(log + [m]) == ControlValues(log)[m.control := m.value]
  {
    assert (log + [m])[..|log|] == log;
  }

  /** A note shows a colour exactly when some Note On was sent to it. */
  lemma {:induction false} NoteShownIffSent(log: seq<Message>, n: int)
    ensures n in NoteColours(log) <==> exists i :: 0 <= i < |log| && log[i].NoteOn? && log[i].note == n
  {
    if log != [] {
      var front := log[..|log| - 1];
      NoteShownIffSent(front, n);
      assert forall i :: 0 <= i < |front| ==> front[i] == log[i];
      if n in NoteColours(log) && !(log[|log| - 1].NoteOn? && log[|log| - 1].note == n) {
        var i :| 0 <= i < |front| && front[i].NoteOn? && front[i].note == n;
        assert log[i].NoteOn? && log[i].note == n;
      }
    }
  }

  /** A note shows the velocity of the last Note On sent to it. */
  lemma {:induction false} NoteShowsLastWrite(log: seq<Message>, i: nat)
    requires i < |log| && log[i].NoteOn?
    requires forall j :: i < j < |log| ==> !(log[j].NoteOn? && log[j].note == log[i].note)
    ensures log[i].note in NoteColours(log)
    ensures NoteColours(log)[log[i].note] == log[i].velocity
  {
    if i < |log| - 1 {
      var front := log[..|log| - 1];
      assert front[i] == log[i];
      NoteShowsLastWrite(front, i);
    }
  }

  /** A top button shows the value of the last Control Change sent to it. */
  lemma {:induction false} ControlShowsLastWrite(log: seq<Message>, i: nat)
    requires i < |log| && log[i].ControlChange?
    requires forall j :: i < j < |log| ==> !(log[j].ControlChange? && log[j].control == log[i].control)
    ensures log[i].control in ControlValues(log)
    ensures ControlValues(log)[log[i].control] == log[i].value
  {
    if i < |log| - 1 {
      var front := log[..|log| - 1];
      assert front[i] == log[i];
      ControlShowsLastWrite(front, i);
    }
  }

  /** The Launchpad's output port: the messages sent so far, oldest first. */
  class MidiOutPort {
    var sent: seq<Message>

    constructor ()
      ensures sent == []
    {
      sent := [];
    }

    method SendNoteOn(note: Byte, velocity: Byte)
      modifies this
      ensures sent == old(sent) + [NoteOn(note, velocity)]
      ensures NoteColours(sent) == old(NoteColours(sent))[note := velocity]
      ensures ControlValues(sent) == old(ControlValues(sent))
    {
      ColoursAfterSend(sent, NoteOn(note, velocity));
      sent := sent + [NoteOn(note, velocity)];
    }

    method SendControlChange(control: Byte, value: Byte)
      modifies this
      ensures sent == old(sent) + [ControlChange(control, value)]
      ensures NoteColours(sent) == old(NoteColours(sent))
      ensures ControlValues(sent) == old(ControlValues(sent))[control := value]
    {
      ColoursAfterSend(sent, ControlChange(control, value));
      sent := sent + [ControlChange(control, value)];
    }
  }
}
