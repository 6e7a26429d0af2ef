/** The kinds of control an event can come from (live_control.h). */
module ControlTypes {
  datatype ControlType = Button | Fader | Aftertouch | PitchBend | Program
}
