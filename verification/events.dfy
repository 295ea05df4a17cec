/**
 * The value types shared by the library: decisions, events, device
 * descriptions and handler references (kaptivate/kaptivate.hpp).
 */
module Events {

  /** A Win32 handle (HANDLE, HHOOK, HWND); 0 stands for NULL. */
  type Handle = nat

  /** A 32-bit unsigned Win32 integer (UINT, DWORD). */
  newtype uint32 = x: int | 0 <= x < 0x1_0000_0000

  /** What should be done with a particular event. */
  datatype Decision = Undecided | Permit | Consume | Pass {
    /** The numeric value of the C++ enumerator. */
    function Code(): int {
      match this
      case Undecided => 1
      case Permit => 2
      case Consume => 4
      case Pass => 8
    }
  }

  /**
   * A C++ pointer: NULL, or a reference to an object. Identity of the
   * referenced object is modelled by equality of its value.
   */
  datatype Pointer<+T> = Null | Ref(target: T)

  /** A keyboard event as produced by the raw input side. */
  datatype KeyboardEvent = KeyboardEvent(
    device: Handle,
    vkey: uint32,
    scanCode: uint32,
    wmMessage: uint32,
    keyUp: bool,
    decision: Decision)

  /** Mouse events carry only a decision in this revision. */
  datatype MouseButtonEvent = MouseButtonEvent(decision: Decision)
  datatype MouseWheelEvent = MouseWheelEvent(decision: Decision)
  datatype MouseMoveEvent = MouseMoveEvent(decision: Decision)

  /** KeyboardInfo and MouseInfo: a device handle and its platform name. */
  datatype DeviceInfo = DeviceInfo(device: Handle, name: string)

  /** Application handler objects, known to the library only by identity. */
  datatype KeyboardHandler = KeyboardHandler(id: nat)
  datatype MouseHandler = MouseHandler(id: nat)
}
