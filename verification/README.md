# java-celeste in Dafny

A model of the core of java-celeste. java-celeste is a Celeste-style 2D platformer written in Java Swing. The model covers:

- **the player's frame update.** It runs the phases in source order: the climb-key release since the last frame, wall contact, climbing with its stamina, the dash (two charges, three colour tiers), running, jumping with its cooldown, gravity and fast-fall, and integration. Then come collision with the ground line, one-way platforms, solid blocks and spikes, then the horizontal clamp and the refill on landing. It also covers death, the 30-frame death animation and respawn.
- **the map elements.** These are the axis-aligned collision box, the platform landing test, checkpoints (activation latch and respawn offset) and energy beans (consume and a 120-frame recovery).
- **the map data and its builder**, plus the JSON loader's conversion and its fallback to an empty map.
- **the key-binding tables** and their reverse lookup.
- **the game's bookkeeping.** This covers the unified element array, the start-up spawn and respawn point, checkpoint activation and the order of one frame.
- **the map editor's geometry and mouse handling.** This covers drag rectangles, creation thresholds, hit-testing, the element list, duplicate, delete and drag-to-move.

Every operation is a pure function over immutable datatypes, or a method with loops where the source loops. A frame of the player is the composition of one function per phase, so each phase carries its own contract. Element coordinates are Java `int`s and are modelled as `int`. Player positions and velocities are Java `double`s and are modelled as `real`.

Modules: `Wrappers`, `MapElements`, `Platforms`, `Checkpoints`, `EnergyBeans`, `PlayerState`, `PlayerCollision`, `PlayerStep`, `PlayerProofs`, `MapDesign`, `JsonMapLoader`, `KeyBindings`, `Game`, `MapEditor`.

Three behaviours of the code worth knowing:

- Activating a checkpoint during play never changes the player's respawn point. The respawn point is chosen once, at start-up (`Game.RespawnPointIsFixed`).
- `checkCollision` is a strict overlap test on the corner coordinates only. An element of width or height 0 can therefore still collide with the player (`MapElements.ZeroWidthElementCanCollide`).
- Dashing and climbing are independent flags, and both can be set at once (`PlayerProofs.DashingWhileClimbing`).

## Model

| member | source | states |
|---|---|---|
| MapElements.NewRect | src/MapElement.java:22-28 | An element keeps exactly the corner and size it was built with. |
| MapElements.CollisionIsIntervalOverlap | src/MapElement.java:46-51 | For boxes of positive size, a collision is exactly an overlap of the open intervals on both axes. |
| MapElements.EdgeContactIsNoCollision | src/MapElement.java:46-51 | Boxes that only touch along an edge do not collide. |
| MapElements.CollisionIsTranslationInvariant | src/MapElement.java:46-51 | Moving the element and the player by the same integer offset does not change the outcome. |
| MapElements.ZeroWidthElementCanCollide | src/MapElement.java:46-51 | A 0-wide element at x = 10 collides with a 30-wide player at x = 0, although the two x-intervals do not overlap as open intervals. |
| MapElements.CheckCollision | src/MapElement.java:46-51 | The element-versus-player overlap test: strict inequalities on all four sides. `MapElements.CollisionIsIntervalOverlap` characterises it as open-interval overlap on both axes. |
| MapElements.SetPosition | src/MapElement.java:91-94 | Moves the corner and keeps the size. |
| MapElements.SetSize | src/MapElement.java:99-102 | Changes the size and keeps the corner. |
| Platforms.LandingIffOnPlatformAndFalling | src/Platform.java:30-43 | For a player and a platform of positive width, a landing happens exactly when the open horizontal extents overlap (`MapElements.IntervalsOverlap`), the feet lie in the platform's closed top band, and the player is moving down. |
| Platforms.OneWayLanding | src/Platform.java:41-43 | A player moving up or resting vertically never lands, so platforms are passable from below. |
| Platforms.OnPlatformVersusCollision | src/Platform.java:30-38 | Feet exactly on the top edge count as "on the platform" but not as a collision; feet inside the top band count as both. |
| Platforms.TopY | src/Platform.java:46-48 | The landing height is the platform's top edge. |
| Platforms.IsPlayerOnPlatform | src/Platform.java:30-38 | The player overlaps the platform horizontally and its feet lie within the platform's top band. `Platforms.OnPlatformVersusCollision` separates it from the collision test. |
| Platforms.CheckLanding | src/Platform.java:41-43 | A landing is "on the platform" while moving down. `Platforms.LandingIffOnPlatformAndFalling` characterises it by interval overlap, and `Platforms.OneWayLanding` shows that a player not moving down never lands. |
| Checkpoints.NewCheckpoint | src/Checkpoint.java:31-39 | A new checkpoint is activated exactly when it is activated by default, with the given box and offset. |
| Checkpoints.Activate | src/Checkpoint.java:90-92 | Activation sets the latch and changes nothing else. |
| Checkpoints.ActivateIsIdempotent | src/Checkpoint.java:90-92 | Activating twice is the same as activating once. |
| Checkpoints.ActivationBoxIsCollision | src/Checkpoint.java:80-85 | The activation test is the element collision test on the checkpoint's box. |
| Checkpoints.IsPlayerInActivationBox | src/Checkpoint.java:80-85 | The player touches the checkpoint's box. `Checkpoints.ActivationBoxIsCollision` identifies it with the element collision test. |
| Checkpoints.SetRespawnOffset | src/Checkpoint.java:125-128 | Replaces the offset and keeps the box and both activation flags. |
| Checkpoints.RespawnPointAfterSetters | src/Checkpoint.java:97-106 | After moving the box to (x, y) and setting offset (ox, oy), the respawn point is (x + ox, y + oy). |
| Checkpoints.RespawnX | src/Checkpoint.java:97-99 | The respawn x is the box's corner shifted by the x offset. `Checkpoints.RespawnPointAfterSetters` relates it to the setters. |
| Checkpoints.RespawnY | src/Checkpoint.java:104-106 | The respawn y is the box's corner shifted by the y offset. `Checkpoints.RespawnPointAfterSetters` relates it to the setters. |
| Checkpoints.ActivationIsPermanent | src/Checkpoint.java:90-92 | No sequence of moves, offset changes or activations clears the latch or the default flag. |
| EnergyBeans.NewEnergyBean | src/EnergyBean.java:28-33 | A new bean is available, 20 × 20, with a valid timer. |
| EnergyBeans.NewSizedEnergyBean | src/EnergyBean.java:38-43 | A bean built with a size is a square of that size. |
| EnergyBeans.Consume | src/EnergyBean.java:61-68 | Consumption succeeds exactly when the bean is available, and then restarts the timer; otherwise the bean is unchanged. |
| EnergyBeans.Update | src/EnergyBean.java:46-55 | An available bean is unchanged by a frame, and the timer stays in range. |
| EnergyBeans.UpdateIgnoresDeltaTime | src/EnergyBean.java:46-55 | A bean's frame update does not depend on the frame time. |
| EnergyBeans.RecoveryCountdown | src/EnergyBean.java:46-55 | From timer t, a consumed bean stays consumed for 119 − t frames and is available again on frame 120 − t. |
| EnergyBeans.ConsumeThenRecover | src/EnergyBean.java:46-68 | After a successful consume, every later consume fails and changes nothing for 119 frames; after exactly 120 frames the bean is as it was. |
| EnergyBeans.RecoveryProgress | src/EnergyBean.java:82-87 | Progress lies in [0, 1], is 1 exactly when the bean is available, and is timer/120 while it recovers. |
| EnergyBeans.CollisionMatchesBase | src/EnergyBean.java:141-146 | The bean's collision test is the element test on its box and does not depend on whether it is consumed. |
| EnergyBeans.CheckCollision | src/EnergyBean.java:141-146 | The bean's overlap test, on its box and ignoring consumption. `EnergyBeans.CollisionMatchesBase` ties it to `MapElements.CheckCollision`. |
| PlayerState.NewPlayer | src/Player.java:57-68 | A new player is valid and at rest, with full dashes and stamina, and its respawn point is its start point. |
| PlayerState.SetRespawnPoint | src/Player.java:82-85 | Sets the respawn point and does not move the player. |
| PlayerState.Die | src/Player.java:387-393 | Death stops the player where it is and starts the animation timer at 0, keeping the dash and stamina state. |
| PlayerState.Respawn | src/Player.java:395-409 | Respawn puts the player at its respawn point, at rest and alive, with full dashes and stamina and no dash or climb. |
| PlayerCollision.FirstWallContact | src/Player.java:287-301 | The wall direction is nonzero exactly when some block is within the 5-pixel side tolerance, and it is that block's side. |
| PlayerCollision.CheckWallCollision | src/Player.java:287-323 | The player touches a wall exactly when some solid block is in side contact. Only the wall fields change. |
| PlayerCollision.GroundCheck | src/Player.java:189-195 | At or below ground line 510 the player is put on it, stopped, grounded and recharged; above it nothing changes. |
| PlayerCollision.PlatformStep | src/Player.java:217-231 | A landing snaps the feet to the platform top with vertical speed 0. Standing on the platform grounds the player and recharges the dashes. Off the platform nothing changes. |
| PlayerCollision.ResolvePlatforms | src/Player.java:217-231 | Platforms never move the player sideways or clear a grounded state; any change sets vertical speed to 0 or recharges the dashes. |
| PlayerCollision.ChooseSideIsFirstMinimum | src/Player.java:247-269 | The push side is the one with the smallest overlap, with ties going left, then right, then top, then bottom. |
| PlayerCollision.BlockStep | src/Player.java:234-272 | A colliding block pushes the player out along the chosen side (zeroing that speed and landing on a top push), so that it no longer overlaps. |
| PlayerCollision.ResolveSolidBlocks | src/Player.java:234-272 | Blocks only zero velocities, set the ground flag and recharge; the other state stays the same. |
| PlayerCollision.CheckSpikes | src/Player.java:274-282 | The player dies exactly when it touches a spike; otherwise nothing changes. |
| PlayerStep.HandleClimbing | src/Player.java:328-385 | Without a wall a climb ends and nothing else changes. A climb starts only with the climb key held, needs the wall and leaves stamina above 0. A climber has no horizontal speed and moves at the climb speed for the vertical keys. Stamina never rises. |
| PlayerStep.ClimbingAtWall | src/Player.java:341-382 | At the wall a climbing (or starting) player pays exactly `STAMINA_DRAIN_RATE * deltaTime`, keeps climbing iff stamina stays above 0, and otherwise drops off with 0. A player at the wall who does not climb keeps its stamina; pushing into the wall sets the slide speed with no horizontal speed, and otherwise nothing changes. |
| PlayerStep.ReleaseClimb | src/Player.java:496-500 | Releasing the climb key ends any climb and changes nothing else, so no frame starts climbing without the key held. |
| PlayerProofs.ClimbNeedsKey | src/Player.java:328-385 | No update ends with the player climbing unless the climb key is held. |
| PlayerProofs.ClimbStep | src/Player.java:376-382 | One climbing phase at the wall takes one drain off the stamina or leaves a spent climber off the wall. |
| PlayerProofs.DrainedIsLinear | src/Player.java:377-377 | Taking one drain per frame for n frames takes n times the drain. |
| PlayerProofs.ClimbingDrains | src/Player.java:376-382 | After n climbing frames at the wall the player still climbs exactly when the stamina left after n drains is above 0, and then holds that amount; otherwise it has dropped off with 0 and never restarts. |
| PlayerStep.DashDirection | src/Player.java:428-439 | The dash direction is never zero, horizontal input beats the default, and the default is to the right. |
| PlayerStep.StartDash | src/Player.java:411-451 | With a charge left, a dash starts, spends one charge and takes the tier of the charge count; with no charge nothing happens. |
| PlayerStep.EndDash | src/Player.java:453-459 | A dash ends with half its velocity kept. |
| PlayerProofs.DashVelocities | src/Player.java:428-448 | A one-axis dash has speed 12 along that axis, with right beating left and down beating up. A diagonal dash has both components nonzero and below 12. |
| PlayerProofs.DefaultDashIsRight | src/Player.java:436-448 | With no direction held the dash goes right at speed 12. |
| PlayerProofs.DashStartsIff | src/Player.java:105-107 | An alive player that is not dashing is dashing after the update exactly when dash is held and a charge is left. |
| PlayerProofs.DashStartSpendsOneCharge | src/Player.java:105-118 | Starting a dash spends exactly one charge and sets the dash velocity. |
| PlayerProofs.DashFrames | src/Player.java:110-118 | While a dash lasts, the velocity is the dash velocity; on frame 15 it ends at half speed. |
| PlayerStep.DashTick | src/Player.java:110-120 | One dash frame does not move the player. The dash goes on exactly while the advanced timer is below 15, holding the dash velocity; at 15 it ends with half that velocity kept. Charges, the cooldown and validity are kept. |
| PlayerStep.Run | src/Player.java:122-130 | Running changes only the horizontal speed. A climbing player is unchanged. Otherwise the speed lies in [−3, 3], is negative exactly when only left is held, and is positive exactly when only right is held. |
| PlayerStep.Jump | src/Player.java:133-161 | A jump needs the key, footing or a climb, and an elapsed cooldown. It then leaves the ground and restarts the cooldown; otherwise the player is unchanged. |
| PlayerStep.Gravity | src/Player.java:164-173 | Gravity changes only the vertical speed. A grounded or climbing player is unchanged. Otherwise the speed grows by between 0.5 (normal) and 1.0 (fast fall). At a wall or in a dash it grows by at most the normal 0.5. |
| PlayerProofs.FreeFallGravity | src/Player.java:163-173 | In free fall, gravity adds 1.0 when fast-falling downward and 0.5 otherwise. |
| PlayerProofs.WallGravityIsNeverFastFall | src/Player.java:163-173 | At a wall without climbing, gravity always adds 0.5, even with down held, to the velocity the climbing phase left. |
| PlayerProofs.WallSlideIsOverwritten | src/Player.java:122-173 | Pressing into a wall sets the slide speed, which running and gravity then overwrite. |
| PlayerProofs.JumpNeedsCooldownAndFooting | src/Player.java:133-161 | A jump happens only with jump held, the cooldown over, and the ground or a climb that survives the climbing phase; touching a wall is not enough. It restarts the 10-frame cooldown. |
| PlayerProofs.GroundJump | src/Player.java:133-173 | A jump from the ground leaves with vertical speed −12 + 0.5 after gravity. |
| PlayerProofs.ClimbingWallJump | src/Player.java:134-153 | Jumping off a wall while pressing away gives (−6, −9.6), then gravity, and ends the climb. |
| PlayerProofs.DashingWhileClimbing | src/Player.java:99-118 | A concrete state where the player is dashing and climbing at once. |
| PlayerStep.Steer | src/Player.java:99-174 | The steering phases never move the player, kill it or change its respawn point, and they keep the state valid. |
| PlayerStep.Integrate | src/Player.java:177-178 | Position advances by exactly the velocity. |
| PlayerStep.TickJumpCooldown | src/Player.java:181-183 | The cooldown never grows and never drops below 0. |
| PlayerStep.ClampX | src/Player.java:207-208 | x ends in [0, 770], and a position already inside is unchanged. |
| PlayerStep.RefillOnGround | src/Player.java:211-214 | A grounded player has full stamina and is not climbing. |
| PlayerStep.Collide | src/Player.java:186-204 | Collision keeps the respawn point and the dash, climb and stamina state; a death here stops the player with the timer at 0. |
| PlayerProofs.UpdatePreservesValid | src/Player.java:87-215 | A frame keeps the player state valid: charges 0..2, stamina 0..100, timers in range. |
| PlayerStep.Update | src/Player.java:87-215 | One player frame. After an alive frame x lies in [0, 770]; `PlayerProofs.UpdatePreservesValid`, `PlayerProofs.DeathCountdown` and the other update lemmas state the rest. |
| PlayerStep.DeathTick | src/Player.java:88-96 | The player stays dead exactly while the advanced animation timer is below 30, without moving. At 30 it is back at its respawn point with full dashes. Validity is kept. |
| PlayerProofs.UpdateClampsX | src/Player.java:206-208 | After an alive frame x lies in [0, 770], even when the frame kills the player. |
| PlayerProofs.GroundRefillsStamina | src/Player.java:210-214 | A frame that ends grounded ends with full stamina and no climb. |
| PlayerProofs.DeadUpdate | src/Player.java:88-96 | A dead player's update only advances the death timer, or respawns the player when the timer reaches 30; a released climb key also clears the climb flag. |
| PlayerProofs.DeathCountdown | src/Player.java:88-96 | A dead player stays put for the remaining animation frames (only a released climb key clears the climb flag), and the last of them respawns it. |
| PlayerProofs.AliveUpdateKeepsRespawnPoint | src/Player.java:87-215 | An alive frame never moves the respawn point, and a death in it starts the timer at 0. |
| PlayerProofs.DeathRespawnRoundTrip | src/Player.java:88-96 | After the frame that kills it, the player stays where it died for 29 frames and is at its respawn point, recharged, on the 30th. |
| MapDesign.NewMapData | src/MapDesign.java:20-24 | A new map has three empty lists. |
| MapDesign.CreateEmptyMap | src/MapDesign.java:134-136 | The empty map has no elements. |
| MapDesign.NewMapBuilder | src/MapDesign.java:85-87 | A new builder wraps an empty map. |
| MapDesign.AddPlatform | src/MapDesign.java:92-95 | Appends one platform; the other lists stay the same and the count grows by 1. |
| MapDesign.AddSolidBlock | src/MapDesign.java:100-103 | Appends one solid block; the other lists stay the same and the count grows by 1. |
| MapDesign.AddSpike | src/MapDesign.java:108-111 | Appends one spike; the other lists stay the same and the count grows by 1. |
| MapDesign.ApplyStepsAppends | src/MapDesign.java:92-119 | Any sequence of add calls appends, to each list, the elements of that kind in call order. |
| MapDesign.KindCountsSum | src/MapDesign.java:49-51 | The three kind counts of a call sequence add up to its length. |
| MapDesign.TotalElementCount | src/MapDesign.java:49-51 | The total is 0 exactly when all three lists are empty. `MapDesign.KindCountsSum` ties it to the add calls. |
| MapDesign.Build | src/MapDesign.java:117-119 | Building yields the builder's map. `MapDesign.BuildFromFresh` states what a fresh builder yields. |
| MapDesign.BuildFromFresh | src/MapDesign.java:85-119 | A fresh builder yields exactly the added elements, and its total count is the number of calls. |
| JsonMapLoader.ConvertToMapData | src/JsonMapLoader.java:85-110 | Each list is the config's entries in order, converted to rectangles; a missing list gives an empty one. |
| JsonMapLoader.LoadMapFromJson | src/JsonMapLoader.java:59-67 | A missing file and a parse failure are errors; a parsed config gives its converted map. |
| JsonMapLoader.LoadMapFromJsonOrDefault | src/JsonMapLoader.java:72-80 | Any missing-file or parse failure gives the empty map; otherwise the converted map. |
| KeyBindings.GenerateReverseLookup | src/KeyBindings.java:48-57 | Every key bound by any action is mapped, and only to an action whose list holds it. |
| KeyBindings.GetKeysForAction | src/KeyBindings.java:64-66 | An unknown action has no keys; a known action has exactly its table entry. |
| KeyBindings.LookupAgreesWithTable | src/KeyBindings.java:73-75 | A key's action binds that key, and a bound key always has an action. |
| KeyBindings.GetActionForKey | src/KeyBindings.java:73-75 | The lookup is none exactly for an unbound key. A bound key yields its entry in the reverse table. |
| KeyBindings.IsJumpKey | src/KeyBindings.java:80-82 | The key's action is JUMP; exclusive with the other five (`KeyBindings.KeyPredicatesExclusive`). |
| KeyBindings.IsDashKey | src/KeyBindings.java:87-89 | The key's action is DASH; exclusive with the other five. |
| KeyBindings.IsLeftMoveKey | src/KeyBindings.java:94-96 | The key's action is MOVE_LEFT; exclusive with the other five. |
| KeyBindings.IsRightMoveKey | src/KeyBindings.java:101-103 | The key's action is MOVE_RIGHT; exclusive with the other five. |
| KeyBindings.IsUpMoveKey | src/KeyBindings.java:108-110 | The key's action is MOVE_UP; exclusive with the other five. |
| KeyBindings.IsDownMoveKey | src/KeyBindings.java:115-117 | The key's action is MOVE_DOWN; exclusive with the other five. |
| KeyBindings.KeyPredicatesExclusive | src/KeyBindings.java:80-117 | At most one of the six key predicates holds for a key. |
| KeyBindings.DefaultLookup | src/KeyBindings.java:24-43 | The default table's lookup is A/D/W/S/K/J to left/right/up/down/jump/dash, and no key maps to CLIMB. |
| Game.CreateUnifiedMapElementsArray | src/Game.java:202-233 | The unified array has the five counts' sum of entries: platforms, solid blocks, spikes, checkpoints, then energy beans, each group in order. |
| Game.GetLatestActivatedCheckpoint | src/Game.java:288-300 | The result is none exactly when no activated checkpoint has a time above 0. Otherwise it is the first activated checkpoint with the greatest time. |
| Game.LatestIsUnique | src/Game.java:288-300 | At most one checkpoint is the latest activated one: the greatest time above 0, first among equals. |
| Game.StartGame | src/Game.java:46-77 | The player starts valid and alive at its respawn point. When some checkpoint is activated with a time above 0, that point is the respawn point of the latest activated checkpoint (the greatest time, first among equals; unique by `Game.LatestIsUnique`). Otherwise it is (100, 900). |
| Game.SpawnPoint | src/Game.java:48-59 | The start position: the latest activated checkpoint's respawn point, or (100, 900) when none is activated. `Game.StartGame` states it against the checkpoint list. |
| Game.UpdateEnergyBeans | src/Game.java:265-269 | Every bean advances one frame and no bean is added or dropped. |
| Game.CheckCheckpointActivation | src/Game.java:274-283 | A checkpoint ends activated exactly when it was activated or the 30 × 40 player box overlaps it; nothing else about any checkpoint changes. |
| Game.Step | src/Game.java:119-127 | A frame keeps the level; each checkpoint is activated iff it was or the player's box at its position after this frame overlaps it, with nothing else about it changed; beans keep their boxes and available ones stay as they were; an alive player keeps its respawn point; validity is preserved; no one climbs without the climb key. |
| Game.PlayerFrame | src/Game.java:119-127 | The player's part of a frame keeps an alive player's respawn point, preserves validity and climbs only with the climb key. |
| Game.RespawnPointIsFixed | src/Game.java:274-283 | Over any run of frames the respawn point never changes, and activated checkpoints stay activated. |
| Game.EnteringActivates | src/Game.java:274-283 | A frame that ends in a checkpoint's box leaves that checkpoint activated and otherwise unchanged. |
| MapEditor.DragRect | src/MapEditor.java:756-759 | The drag rectangle spans from the smaller to the larger coordinate on each axis. |
| MapEditor.DragRectIsSymmetric | src/MapEditor.java:756-759 | Swapping the drag's start and end gives the same rectangle. |
| MapEditor.DragRectHasBothCorners | src/MapEditor.java:756-759 | Both drag end points lie on the rectangle, bounds included. |
| MapEditor.CreatedRect | src/MapEditor.java:756-761 | A rectangle is created exactly when both sides exceed the minimum. |
| MapEditor.CreatePlatform | src/MapEditor.java:755-764 | Appends the drag rectangle to the platforms when both sides exceed 10; nothing else changes. |
| MapEditor.CreateSolidBlock | src/MapEditor.java:769-778 | Appends the drag rectangle to the solid blocks when both sides exceed 10; nothing else changes. |
| MapEditor.CreateSpike | src/MapEditor.java:783-792 | Appends the drag rectangle to the spikes when both sides exceed 5; nothing else changes. |
| MapEditor.DefaultRespawnOffset | src/MapEditor.java:802-803 | The pre-filled offset is half of each side, rounded down, strictly inside the box. |
| MapEditor.CreateCheckpoint | src/MapEditor.java:794-815 | Above 20 on both sides, a confirmed dialog appends a checkpoint with its offsets (0 for an unparsable field); a cancelled one changes nothing. |
| MapEditor.AcceptedDefaultRespawnsInside | src/MapEditor.java:794-815 | Accepting the pre-filled dialog puts the respawn point strictly inside the new box. |
| MapEditor.FirstHit | src/MapEditor.java:718-724 | Returns the first rectangle containing the point, bounds included, or none exactly when none contains it. |
| MapEditor.FindElementAt | src/MapEditor.java:716-750 | Returns an element containing the point that no earlier element (by kind order, then list order) contains; none exactly when nothing contains it. |
| MapEditor.SelectElementFromList | src/MapEditor.java:349-366 | A row index picks platforms, then solid blocks, then spikes by offset; −1 keeps the selection. |
| MapEditor.ListSelectionRoundTrip | src/MapEditor.java:349-366 | Selecting an element's own row selects that element. |
| MapEditor.Remove | src/MapEditor.java:646-659 | Removes the element from its own kind's list only; the total count drops by 1. |
| MapEditor.AfterRemovalTracksElement | src/MapEditor.java:644-659 | After a removal the selection still names the same element, or is none exactly when that element was the one removed. |
| MapEditor.DeleteSelectedElement | src/MapEditor.java:371-384 | Removes a selected platform, block or spike from its list and clears the selection; a selected checkpoint stays. |
| MapEditor.DuplicateSelectedElement | src/MapEditor.java:389-404 | Appends a copy moved by (+50, +50), same size, to the selected element's list; the original stays. Checkpoints are not copied. |
| MapEditor.DuplicateThenDeleteCopy | src/MapEditor.java:371-404 | Deleting the copy a duplicate made restores the map. |
| MapEditor.MoveBy | src/MapEditor.java:702-705 | The referenced element moves by the delta and keeps its size; every other element stays. |
| MapEditor.MoveByInverse | src/MapEditor.java:702-705 | Moving back by the opposite delta restores the map. |
| MapEditor.MovedCheckpointKeepsOffset | src/MapEditor.java:702-705 | A moved checkpoint's respawn point moves with it. |
| MapEditor.InitialState | src/MapEditor.java:58-63 | A freshly opened editor is in platform mode with no selection and no drag, and its state is valid. |
| MapEditor.SetEditMode | src/MapEditor.java:305-310 | Switching mode drops the selection. |
| MapEditor.DeleteClick | src/MapEditor.java:644-659 | Deleting the clicked element removes it from its own list, checkpoints included, leaves the other lists and the drag state alone, and keeps a selection of another element pointing at that same element; a selection of the removed element is cleared. |
| MapEditor.MousePressed | src/MapEditor.java:637-666 | SELECT selects what is under the mouse; DELETE deletes the element under the mouse as `DeleteClick` states, or changes nothing over empty space; a creation mode starts a drag from the mouse position and changes nothing else. |
| MapEditor.MouseDragged | src/MapEditor.java:696-711 | During a drag, the selected element moves by the mouse delta since the last event. |
| MapEditor.DragEventsCompose | src/MapEditor.java:696-711 | Two drag events move the element as far as one event straight to the final position. |
| MapEditor.MouseReleased | src/MapEditor.java:671-691 | Ending a drag resets the drag, keeps the selection and the editor state valid, and adds at most one element: every list keeps its old elements as a prefix. |

## Left out

- Rendering, colours, fonts, Swing windows and dialogs, and key and mouse listeners. Key state is an `Input` record per frame, mouse events are points, and the checkpoint dialog's outcome is a `DialogAnswer`.
- Key events between frames. Only their effect is modelled: an `Input` gives the keys held during a frame, and a climb key that is not held means it was released, which cleared `isClimbing` (`PlayerStep.ReleaseClimb`).
- The game-loop thread, `Thread.sleep` and the `System.nanoTime` frame delta. `deltaTime` is an input; the player's constants are per frame, as in the code.
- `double` rounding. Reals are exact here.
- PlayerStep.Normalised: the diagonal dash uses the constant `DIAGONAL_UNIT` for 1/√2 and does not compute the square root.
- Java `int` overflow in element coordinates, `Math.abs` and the editor's offsets. Integers are unbounded.
- File I/O and Jackson parsing. The loader takes "does the file exist" and the parse result as inputs. `MapDesign.createMapFromConfig` is `JsonMapLoader.LoadMapFromJsonOrDefault` under another name. `getMapInfo`, `saveMapToFile`, `getMapStats`, `getAllElementsInfo`, `getInfo` and `getDistanceTo` only format text or compute display values.
- Members the code calls but does not declare, so nothing is modelled for them:
  - `Player.setCheckpoints`, `setEnergyBeans` and `setMapElements`. The player never reads checkpoints or beans, so energy beans are never consumed in play.
  - `MapData.checkpoints` and `MapData.energyBeans`. The game takes them as inputs, and the editor keeps the checkpoints in its own `EditorMap`.
  - `Checkpoint.getActivationTime`. Activation times are an input sequence parallel to the checkpoints.
  - `JsonMapLoader.CheckpointData` and `MapConfig.checkpoints`.
  - `KeyBindings.isClimbKey`. The climb key is the `climb` field of `Input`, and the default table has no climb binding.
- HashMap iteration order in `generateReverseLookup`. The method picks actions in an unspecified order. Its contract holds for every order, and for the default table the result is unique.
- JsonMapLoader.LoadMapFromJsonOrDefault: a JSON `null` document, or a `null` entry in one of the three lists, makes the Java code throw a NullPointerException (src/JsonMapLoader.java:89-105). Only IOException is caught (:75), so that exception escapes. The model's types cannot hold `null`, so these paths are outside the model.
- MapEditor.DeleteClick, MapEditor.MousePressed: the editor holds object references. A selection whose element is deleted by a DELETE-mode click still points at the detached object, so duplicating it would add a copy of a removed element. The model clears such a selection instead.
- The editor's list model (`updateElementList`), status bar, new/open/save dialogs and map name fields.
