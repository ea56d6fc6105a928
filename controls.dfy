/** The input handlers of mp3A.js: the held-key map, the yaw counter that
    the left/right keys move, and the mouse-drag rotation of the teapot.
    Angles are degrees over `real`; every step is exactly `RotDegrees`. */
module Controls {

  /** Degrees added or removed by one key frame or one mouse move. */
  const RotDegrees: real := 0.5

  const KeyLeftArrow: int := 37
  const KeyA: int := 65
  const KeyRightArrow: int := 39
  const KeyD: int := 68

  /** Both stored mouse coordinates hold this value until the first move. */
  const NoMousePos: real := -1.0

  /** The key-frame direction of the yaw counter. */
  datatype Turn = TurnLeft | TurnRight

  /** One left step of `rotDegreesY`: subtract a step, then add a whole turn
      if the counter reached -360. The result stays strictly inside
      (-360, 360) and differs from the plain difference by 0 or 360. */
  function YawLeft(y: real): (r: real)
    ensures -360.0 < y < 360.0 ==> -360.0 < r < 360.0
    ensures r == y - RotDegrees || r == y - RotDegrees + 360.0
    ensures r != y - RotDegrees <==> y - RotDegrees <= -360.0
  {
    var t := y - RotDegrees;
    if t <= -360.0 then t + 360.0 else t
  }

  /** One right step: add a step, then remove a whole turn if the counter
      reached 360. */
  function YawRight(y: real): (r: real)
    ensures -360.0 < y < 360.0 ==> -360.0 < r < 360.0
    ensures r == y + RotDegrees || r == y + RotDegrees - 360.0
    ensures r != y + RotDegrees <==> y + RotDegrees >= 360.0
  {
    var t := y + RotDegrees;
    if t >= 360.0 then t - 360.0 else t
  }

  function YawStep(y: real, t: Turn): real
  {
    match t
    case TurnLeft => YawLeft(y)
    case TurnRight => YawRight(y)
  }

  /** The counter after a sequence of steps, applied in order. */
  function Yaw(y: real, turns: seq<Turn>): real
    decreases |turns|
  {
    if turns == [] then y else Yaw(YawStep(y, turns[0]), turns[1..])
  }

  /** Starting inside (-360, 360), no sequence of steps leaves it. */
  lemma {:induction false} YawBounded(y: real, turns: seq<Turn>)
    requires -360.0 < y < 360.0
    ensures -360.0 < Yaw(y, turns) < 360.0
    decreases |turns|
  {
    if turns != [] {
      var rest := turns[1..];
      YawBounded(YawStep(y, turns[0]), rest);
    }
  }

  /** A left step followed by a right step returns to the same angle modulo a
      whole turn. */
  lemma LeftThenRight(y: real)
    requires -360.0 < y < 360.0
    ensures var r := YawRight(YawLeft(y)); r == y || r == y + 360.0 || r == y - 360.0
  {
  }

  /** The sign the mouse handler multiplies a step by. */
  function Sign(change: real): (s: real)
    ensures s == 1.0 || s == -1.0
    ensures s < 0.0 <==> change < 0.0
  {
    if change < 0.0 then -1.0 else 1.0
  }

  /** One teapot rotation update for a mouse change along one axis, before
      the lower wrap: no change when the change is zero, otherwise one step
      in the direction of the change, less a whole turn exactly when the
      stepped value reached 360. From inside (-360, 360) a downward step
      never wraps. */
  function Turned(rot: real, change: real): (r: real)
    ensures change == 0.0 ==> r == rot
    ensures change != 0.0 ==> r == rot + Sign(change) * RotDegrees || r == rot + Sign(change) * RotDegrees - 360.0
    ensures change != 0.0 ==> (r == rot + Sign(change) * RotDegrees - 360.0 <==> rot + Sign(change) * RotDegrees >= 360.0)
    ensures change < 0.0 && rot < 360.0 + RotDegrees ==> r == rot - RotDegrees
  {
    if change == 0.0 then rot
    else
      var t := rot + Sign(change) * RotDegrees;
      if t >= 360.0 then t - 360.0 else t
  }

  /** A non-zero change whose step ends at or below -360 reaches the
      misspelt lower wrap, which throws. */
  predicate Throws(rot: real, change: real)
  {
    change != 0.0 && Turned(rot, change) <= -360.0
  }

  /** Only the sign of a mouse change matters, not its magnitude. */
  lemma TurnedBySign(rot: real, c1: real, c2: real)
    requires (c1 > 0.0 && c2 > 0.0) || (c1 < 0.0 && c2 < 0.0)
    ensures Turned(rot, c1) == Turned(rot, c2)
  {
  }

  /** The lower wrap assigns to a misspelt name and throws, so it is reached
      exactly when a rotation inside (-360, 360) at or below -359.5 takes
      one more downward step; every other step stays inside. */
  lemma LowerWrapReached(rot: real, change: real)
    requires -360.0 < rot < 360.0
    ensures Throws(rot, change) <==> change < 0.0 && rot <= -360.0 + RotDegrees
    ensures Turned(rot, change) < 360.0
  {
  }

  /** The input state: the held keys, the yaw counter and the mouse drag. */
  class InputState {
    var pressedKeys: map<int, bool>
    var rotDegreesY: real
    var teapotRotX: real
    var teapotRotZ: real
    var mouseDown: bool
    var lastMouseX: real
    var lastMouseY: real

    /** The initial values of the globals, with `lastMousePos` set to the
        sentinel as `startup` does. */
    constructor ()
      ensures pressedKeys == map[] && rotDegreesY == 0.0
      ensures teapotRotX == 0.0 && teapotRotZ == 0.0 && !mouseDown
      ensures lastMouseX == NoMousePos && lastMouseY == NoMousePos
    {
      pressedKeys := map[];
      rotDegreesY := 0.0;
      teapotRotX := 0.0;
      teapotRotZ := 0.0;
      mouseDown := false;
      lastMouseX := NoMousePos;
      lastMouseY := NoMousePos;
    }

    /** A key counts as held when its entry exists and is true; a key never
        seen reads as `undefined`, which is falsy. */
    predicate Pressed(keyCode: int)
      reads this
    {
      keyCode in pressedKeys && pressedKeys[keyCode]
    }

    /** `handleKeyDown`: only the entry of this key changes, to true. */
    method HandleKeyDown(keyCode: int)
      modifies this
      ensures pressedKeys == old(pressedKeys)[keyCode := true]
      ensures Pressed(keyCode)
      ensures forall k :: k != keyCode ==> (Pressed(k) <==> old(Pressed(k)))
      ensures rotDegreesY == old(rotDegreesY) && teapotRotX == old(teapotRotX) && teapotRotZ == old(teapotRotZ)
      ensures mouseDown == old(mouseDown) && lastMouseX == old(lastMouseX) && lastMouseY == old(lastMouseY)
    {
      pressedKeys := pressedKeys[keyCode := true];
    }

    /** `handleKeyUp`: only the entry of this key changes, to false. */
    method HandleKeyUp(keyCode: int)
      modifies this
      ensures pressedKeys == old(pressedKeys)[keyCode := false]
      ensures !Pressed(keyCode)
      ensures forall k :: k != keyCode ==> (Pressed(k) <==> old(Pressed(k)))
      ensures rotDegreesY == old(rotDegreesY) && teapotRotX == old(teapotRotX) && teapotRotZ == old(teapotRotZ)
      ensures mouseDown == old(mouseDown) && lastMouseX == old(lastMouseX) && lastMouseY == old(lastMouseY)
    {
      pressedKeys := pressedKeys[keyCode := false];
    }

    /** The yaw counter part of `handleKeys`: a left step if the left arrow
        or A is held, then a right step if the right arrow or D is held; the
        counter stays inside (-360, 360). */
    method HandleKeys()
      modifies this
      ensures var left := old(Pressed(KeyLeftArrow) || Pressed(KeyA));
              var right := old(Pressed(KeyRightArrow) || Pressed(KeyD));
              var y1 := if left then YawLeft(old(rotDegreesY)) else old(rotDegreesY);
              rotDegreesY == if right then YawRight(y1) else y1
      ensures -360.0 < old(rotDegreesY) < 360.0 ==> -360.0 < rotDegreesY < 360.0
      ensures pressedKeys == old(pressedKeys) && teapotRotX == old(teapotRotX) && teapotRotZ == old(teapotRotZ)
      ensures mouseDown == old(mouseDown) && lastMouseX == old(lastMouseX) && lastMouseY == old(lastMouseY)
    {
      if Pressed(KeyLeftArrow) || Pressed(KeyA) {
        rotDegreesY := rotDegreesY - RotDegrees;
        if rotDegreesY <= -360.0 {
          rotDegreesY := rotDegreesY + 360.0;
        }
      }
      if Pressed(KeyRightArrow) || Pressed(KeyD) {
        rotDegreesY := rotDegreesY + RotDegrees;
        if rotDegreesY >= 360.0 {
          rotDegreesY := rotDegreesY - 360.0;
        }
      }
    }

    /** `handleMouseDown`. */
    method HandleMouseDown()
      modifies this
      ensures mouseDown
      ensures pressedKeys == old(pressedKeys) && rotDegreesY == old(rotDegreesY)
      ensures teapotRotX == old(teapotRotX) && teapotRotZ == old(teapotRotZ)
      ensures lastMouseX == old(lastMouseX) && lastMouseY == old(lastMouseY)
    {
      mouseDown := true;
    }

    /** `handleMouseUp`. */
    method HandleMouseUp()
      modifies this
      ensures !mouseDown
      ensures pressedKeys == old(pressedKeys) && rotDegreesY == old(rotDegreesY)
      ensures teapotRotX == old(teapotRotX) && teapotRotZ == old(teapotRotZ)
      ensures lastMouseX == old(lastMouseX) && lastMouseY == old(lastMouseY)
    {
      mouseDown := false;
    }

    /** `handleMouseMove`: while the button is down and a previous position
        is known, a horizontal move rolls the teapot about Z and a vertical
        move turns it about X, one step each in the direction of the move.
        `ok` is false when the lower wrap is reached: that branch throws a
        ReferenceError after the rotation was already stored, so the later
        updates, including the stored mouse position, do not happen.
        Otherwise the position is always overwritten. */
    method HandleMouseMove(clientX: real, clientY: real) returns (ok: bool)
      modifies this
      ensures var active := old(mouseDown) && old(lastMouseX) != NoMousePos && old(lastMouseY) != NoMousePos;
              var changeX := old(lastMouseX) - clientX;
              var changeY := clientY - old(lastMouseY);
              var failZ := active && Throws(old(teapotRotZ), changeX);
              var failX := active && !failZ && Throws(old(teapotRotX), changeY);
              && teapotRotZ == (if active then Turned(old(teapotRotZ), changeX) else old(teapotRotZ))
              && teapotRotX == (if active && !failZ then Turned(old(teapotRotX), changeY) else old(teapotRotX))
              && (ok <==> !failZ && !failX)
              && (ok ==> lastMouseX == clientX && lastMouseY == clientY)
              && (!ok ==> lastMouseX == old(lastMouseX) && lastMouseY == old(lastMouseY))
      ensures pressedKeys == old(pressedKeys) && rotDegreesY == old(rotDegreesY) && mouseDown == old(mouseDown)
    {
      if mouseDown && lastMouseX != NoMousePos && lastMouseY != NoMousePos {
        var changeX := lastMouseX - clientX;
        var changeY := clientY - lastMouseY;
        if changeX != 0.0 {
          var sign := 1.0;
          if changeX < 0.0 {
            sign := -1.0;
          }
          teapotRotZ := teapotRotZ + sign * RotDegrees;
          if teapotRotZ >= 360.0 {
            teapotRotZ := teapotRotZ - 360.0;
          }
          if teapotRotZ <= -360.0 {
            return false;
          }
        }
        if changeY != 0.0 {
          var sign := 1.0;
          if changeY < 0.0 {
            sign := -1.0;
          }
          teapotRotX := teapotRotX + sign * RotDegrees;
          if teapotRotX >= 360.0 {
            teapotRotX := teapotRotX - 360.0;
          }
          if teapotRotX <= -360.0 {
            return false;
          }
        }
      }
      lastMouseX := clientX;
      lastMouseY := clientY;
      ok := true;
    }
  }
}
