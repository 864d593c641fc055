# questionablemodules — a verified model of the module cores

This project models, in Dafny, the behaviour of six parts of the VCV Rack plugin
"questionablemodules". It proves properties of that model.

- **Treequencer** (`src/treequencer.cpp`) is a sequencer over a binary tree of nodes.
  - Each node carries an output (a gate channel 0–7, or -1 for none) and a chance.
  - The active node walks down the tree one step per gate (Step mode). In Sequence mode, a whole root-to-leaf sequence is drawn in advance and a cursor walks over it per clock.
  - At a leaf the walk goes back to the root, or climbs back up when Bounce is on.
  - The node menu edits a node: output, chance, Preview, Add Child, Remove and Generate Sequence.
  - The tree is saved to and loaded from the patch as JSON.
  - The display gathers the nodes into one bin per level, and a click finds the first node (in pre-order) whose box holds it.
- **SyncMute** (`src/syncmute.cpp`) has eight mutes that each swap on a division or multiple of a clock.
  - Adjacent SyncMute modules control one another through expander messages: button presses, auto-press changes, resets and clock updates.
  - A message travels along the row of modules. A receiving module queues it and drains its queue at the next sample.
- **Discombobulator** (`src/discombobulator.cpp`) routes eight inputs to eight outputs.
  - A gate deals the connected inputs to the connected outputs at random, without replacement.
  - An input moved away from an output fades out of that output.
- **Nandomizer** (`src/nandomizer.cpp`) plays one of the connected inputs on its single output.
  - A gate picks another connected input at random, and the previously active inputs fade out.
- **ColorBG** (`src/colorBG.hpp`) is the panel background widget.
  - It keeps fill and stroke colours and a list of text labels in named groups.
  - A theme recolours every label, and shows the group "nondefault" only under a named theme.
- **QuatOSC** (`src/quatosc.cpp`), only its support code:
  - the ring buffer of drawn points, the loop that drains the audio thread's point queue into it, and the loop that draws it;
  - the clock-frequency guard;
  - `resetPhase` and `fclamp`.

## How the model is built

**Pure logic** becomes functions and lemmas on datatypes:
- tree edits, JSON save and load, note names, validation of typed text;
- message routing between modules, message handling, shuffling and fading.

**State the C++ updates in place** becomes classes with `modifies` clauses:
- the Treequencer module, the node display bins;
- a SyncMute module and its mutes;
- the Discombobulator and Nandomizer modules;
- the ColorBG widget;
- the QuatOSC history ring and its module fields.

Each method is proved against a specification function or a stated postcondition.

**The Treequencer node tree is a value.** A node is `Node(output, enabled, chance, depth, children)`.
- A node pointer becomes a path of child indices from the root.
- The parent pointer becomes the path without its last step.
- The module's methods replace the tree.
- The walk's state (tree with its lights, active node, bouncing, cursor, drawn sequence) is also a value, `Walk`. Each part of `process` is a function on it: `GateStep`, `SequenceClock`, `SwitchWalk`, `TriggerWalk`. Each method states its new state as that function of the old one, so the lights it leaves are exact.

**Inputs the C++ takes from the host become parameters:**
- Schmitt-trigger edges become booleans.
- Knob and CV values, the sample time and cable connections are plain parameters.
- Random draws become arguments, reduced into the range of the draw (`draw % n`) where the C++ draws an integer.

**Floats are modelled as reals.**

## Model

| member | source | states |
|---|---|---|
| `CArith.TruncMod` | src/treequencer.cpp:123 | C++ `%` on ints: the remainder has the dividend's sign and completes `(a / b) * b + a % b == a`. |
| `Decimal.ParseIntToString` | src/treequencer.cpp:123 | Reading back `std::to_string` of any int gives that int. |
| `Json.Get` | src/treequencer.cpp:297-300 | `json_object_get` finds a value exactly when the value is an object with a field of that key. What it finds is that field's value and is smaller than the object. |
| `Json.ArrayItems` | src/treequencer.cpp:302-306 | `json_array_size`/`json_array_get` reach exactly the elements of an array. Each item is smaller than the array. |
| `Scale.GetNoteStringAsWritten` | src/treequencer.cpp:121-125 | Name `abs(note % 12)`, with truncating `%` and `/` for the octave. |
| `Scale.GetNoteString` | src/treequencer.cpp:121-125 | Names the pitch class `note mod 12` (floored). It agrees with the code for every note >= 0. |
| `Scale.NoteStringRoundTrip` | src/treequencer.cpp:121-125 | Every note, negative ones included, is read back from its name and octave. |
| `Scale.NoteStringInjective` | src/treequencer.cpp:121-125 | Different notes get different names. |
| `Scale.AsWrittenMirrorsNegativeNotes` | src/treequencer.cpp:121-125 | As written, note -1 gets note 1's name ("C#", "C#1"). The corrected name is "B" / "B0". |
| `Scale.ToOffset` | src/treequencer.cpp:128-133 | The loop returns the first index whose note is `abs(note % size)`, times `note / size`. It returns 0 when no note matches or the scale is empty. |
| `Scale.GetTransposedBy` | src/treequencer.cpp:135-142 | Every note is shifted by `note`, in order. The name is the new root's note name, a space, then the old name. |
| `Scale.ShiftInverse` | src/treequencer.cpp:135-142 | Transposing by `-k` undoes transposing by `k`. Transposition keeps every interval. |
| `TextInput.CStr` | src/treequencer.cpp:47 | `c_str()` is the longest NUL-free prefix, followed by NUL or the end. |
| `TextInput.StrtolEnd` | src/treequencer.cpp:47-49 | strtol's end pointer lies within the text, and when it moved it stands just past a digit. |
| `TextInput.SyntaxIsInteger` | src/treequencer.cpp:42-50 | A C string made of a sign and a run of digits passes `isInteger`. |
| `TextInput.IsIntegerSyntax` | src/treequencer.cpp:42-50 | Whatever `isInteger` accepts is a sign and a run of digits. |
| `TextInput.IsIntegerMeansSyntax` | src/treequencer.cpp:42-50 | `isInteger` holds exactly when the C string is an optional sign followed by one or more digits. |
| `TextInput.IntegerTextOfIntToString` | src/treequencer.cpp:674-676 | The text `std::to_string` prints for any int passes `isInteger`, and `stoi` reads it back. |
| `TextInput.FindFirstNotSpace` | src/treequencer.cpp:56 | `find_first_not_of(' ')` is the first non-blank index, or npos exactly when the string is all blanks. |
| `TextInput.BlankStringPassesGuard` | src/treequencer.cpp:56-57 | On an all-blank or empty string the guard at line 57 does not return, and the scan indexes past the end. |
| `TextInput.BlankIsNotNumber` | src/treequencer.cpp:52-74 | A blank or empty string is not a number. |
| `TextInput.ScanDecides` | src/treequencer.cpp:59-73 | Once the blanks, sign and significand run are found, the counts and the trailing blanks decide the grammar exactly. |
| `TextInput.ScanSignificand` | src/treequencer.cpp:62-66 | The loop stops at the first character that is neither digit nor point, and counts digits and points up to it. |
| `TextInput.SkipBlanks` | src/treequencer.cpp:70-73 | The trailing loop reaches the end exactly when only blanks follow. |
| `TextInput.IsNumber` | src/treequencer.cpp:52-74 | `isNumber` (blank case closed) accepts exactly blanks, an optional sign, digits with at most one point and at least one digit, then blanks. |
| `TreeNode.SetOutput` | src/treequencer.cpp:184-187 | Only the output changes. |
| `TreeNode.SetChance` | src/treequencer.cpp:189-192 | The chance becomes the value clamped to [0.1, 0.9]. Nothing else changes. |
| `TreeNode.SetEnabled` | src/treequencer.cpp:194-197 | The node at the path takes the new light state. |
| `TreeNode.SetEnabledDim` | src/treequencer.cpp:194-197 | Setting a light leaves outputs, chances, depths and shape unchanged. |
| `TreeNode.SetEnabledElsewhere` | src/treequencer.cpp:194-197 | Every other node keeps its light. |
| `TreeNode.SetEnabledSame` | src/treequencer.cpp:194-197 | Setting a light to the value it has changes nothing. |
| `TreeNode.FillToDepth` | src/treequencer.cpp:221-231 | `d <= 0` leaves the node alone. Otherwise the node keeps its own output, chance, light and depth. |
| `TreeNode.FillToDepthComplete` | src/treequencer.cpp:221-231 | On a leaf, `fillToDepth(d)` builds a full binary tree of height `max(d, 0)`. Its depths follow the parent links and its new nodes carry valid draws. |
| `TreeNode.AddChild` | src/treequencer.cpp:233-244 | A node with two or more children is left alone, and null is returned. Otherwise one drawn child, one level down, is appended and returned. |
| `TreeNode.AddChildKeepsShape` | src/treequencer.cpp:233-244 | Never more than two children. Depths stay consistent, and the new child is fresh (unlit, valid draw). |
| `TreeNode.AddChildInTree` | src/treequencer.cpp:233-244 | On any node of a binary, depth-consistent tree, it stays so and gains exactly one node when a child was added. |
| `TreeNode.GrowKeepsPath` | src/treequencer.cpp:233-244 | Appending children keeps every existing path valid. |
| `TreeNode.EraseChild` | src/treequencer.cpp:246-250 | The child list minus the erased child, the others in order. |
| `TreeNode.EraseChildEffect` | src/treequencer.cpp:246-250 | Erasing a child removes exactly its subtree's nodes and keeps the node binary and depth-consistent. |
| `TreeNode.RemoveEffect` | src/treequencer.cpp:246-250 | Removing the root changes nothing. Removing any other node removes exactly its subtree's nodes and keeps the tree binary and depth-consistent. |
| `TreeNode.RemoveKeepsDepth` | src/treequencer.cpp:246-250 | The root keeps its depth. |
| `TreeNode.PathWithinMaxDepth` | src/treequencer.cpp:252-260 | No path in the tree is longer than `maxDepth`. |
| `TreeNode.DeepestPath` | src/treequencer.cpp:252-260 | Some root-to-leaf path is exactly `maxDepth` long, so `maxDepth` is attained. |
| `TreeNode.DepthAlongPath` | src/treequencer.cpp:171 | A node's depth is the root's depth plus the length of its path. |
| `TreeNode.CompleteMaxDepth` | src/treequencer.cpp:252-260 | `maxDepth` of a full binary tree of height `h` is `h`. |
| `SequenceGenerator.Generate` | src/treequencer.cpp:262-279 | Stops at `d <= 0` or depth 21. Otherwise the node ends with two children, keeping the ones it had in front. |
| `SequenceGenerator.GenerateFromLeaf` | src/treequencer.cpp:262-279 | A leaf grows into a full binary tree of height `min(d, 21 - depth)`. |
| `SequenceGenerator.GenerateDepths` | src/treequencer.cpp:262-279 | No generated node is deeper than 21, and depths follow parent links. |
| `SequenceGenerator.GenerateChances` | src/treequencer.cpp:262-279 | Every generated node is unlit and has a drawn chance. |
| `SequenceGenerator.GenerateKeepsShape` | src/treequencer.cpp:262-279 | Generation keeps a node binary and depth-consistent and only appends children. |
| `TreeJson.ToJson` | src/treequencer.cpp:281-295 | A node is saved as a JSON object. |
| `TreeJson.SavedFields` | src/treequencer.cpp:281-295 | The saved keys "output", "chance" and "children" hold the node's output, chance and its children's saves. |
| `TreeJson.SavedChildren` | src/treequencer.cpp:287-292 | The saved array holds each child's save, in order. |
| `TreeJson.FromJson` | src/treequencer.cpp:297-310 | Loading keeps the node's light and depth, and keeps its existing children in front of the loaded ones. |
| `TreeJson.ChildrenFromJson` | src/treequencer.cpp:304-306 | One child per array element, in order, each one level down. |
| `TreeJson.LoadSavedFields` | src/treequencer.cpp:297-300 | Loading a saved node takes its output and chance, and changes nothing but the children. |
| `TreeJson.RoundTrip` | src/treequencer.cpp:281-310 | Loading a saved tree into a childless node reproduces outputs, chances and child order, with depths recomputed and nothing lit. |
| `TreeJson.ReloadedShape` | src/treequencer.cpp:297-310 | A reloaded tree is binary when the saved one was, and depth-consistent. |
| `TreeJson.RoundTripExact` | src/treequencer.cpp:281-310 | An unlit, depth-consistent tree saved and loaded into an empty unlit node of its depth comes back exactly. |
| `TreeJson.FromJsonDepthsOk` | src/treequencer.cpp:174-178 | Loading into a depth-consistent node keeps it depth-consistent. |
| `Treequencer.Clamp01` | src/treequencer.cpp:440 | The result is in [0, 1], equal to x inside it, and the nearest bound outside. |
| `Treequencer.ChooseChild` | src/treequencer.cpp:466-471 | With two or more children, child 0 is taken exactly when the draw is below the clamped `chance - chanceMod`, else child 1. With one child, that child. |
| `Treequencer.ChooseChildInterval` | src/treequencer.cpp:466-469 | A chance at or above 1 always takes child 0. At or below 0 it always takes child 1. |
| `Treequencer.WholeSequence` | src/treequencer.cpp:436-449 | The sequence starts at the given node. |
| `Treequencer.WholeSequenceDescends` | src/treequencer.cpp:436-449 | Each next element is the chosen child of the previous one. The sequence ends at a leaf and is at most `maxDepth + 1` long. |
| `Treequencer.Advance` | src/treequencer.cpp:493-504 | A cursor inside the sequence stays inside. |
| `Treequencer.SequenceStepCases` | src/treequencer.cpp:484-510 | The cursor walks the sequence forward. At the end it wraps to the first node with a pulse (Bounce off), or walks back without repeating the last node (Bounce on). It never leaves the sequence. |
| `Treequencer.AsWrittenAgrees` | src/treequencer.cpp:493-505 | The unsigned cursor matches the signed one whenever no step goes below 0: no bouncing at position 0, and no one-node sequence with Bounce on. |
| `Treequencer.AsWrittenOverruns` | src/treequencer.cpp:493-505 | In those cases the `size_t` cursor lands on 2^64 - 2, past the end of the sequence. |
| `Treequencer.RemoveAsWritten` | src/treequencer.cpp:708-714 | The Remove command as written keeps the drawn sequence. |
| `Treequencer.LoadAsWritten` | src/treequencer.cpp:592-599 | `dataFromJson` as written clears the root's children without deleting them, and keeps the drawn sequence. |
| `Treequencer.KeptSequenceDangles` | src/treequencer.cpp:708-714 | After either, the kept sequence can name a node that is no longer in the tree. After Remove that node has been deleted. After a load it is a node of the old, unfreed tree. |
| `Treequencer.Moved` | src/treequencer.cpp:430-434 | The light leaves `from` and lands on `to`, which ends lit. `from` ends dark unless it is `to`. Every other node keeps its light, and only lights change. |
| `Treequencer.PreviewLights` | src/treequencer.cpp:692-693 | The node is lit and then `from` unlit, so `from` ends dark and the node lit unless it is `from`. Every other node keeps its light, and only lights change. |
| `Treequencer.ForwardStep` | src/treequencer.cpp:456-473 | From an inner node: into the chosen child, no pulse. At a leaf: pulse, bouncing as Bounce says, and the parent (Bounce on) or the root. Tree, cursor and sequence are kept. |
| `Treequencer.GateStep` | src/treequencer.cpp:455-481 | The four cases of `processGateStep`: step forward, or at a leaf pulse and climb (Bounce) or return to the root; when bouncing, climb to the parent, or at the root stop bouncing and step into a child if it has one. Tree, cursor and sequence are kept. |
| `Treequencer.GateStepDim` | src/treequencer.cpp:455-481 | Lights do not steer a gate step: on trees equal up to lights it reaches the same node, bouncing and pulse. |
| `Treequencer.WholeSequenceDim` | src/treequencer.cpp:436-449 | Lights do not steer the draw of a sequence: trees equal up to lights draw the same sequence. |
| `Treequencer.NewSequenceWalk` | src/treequencer.cpp:486-489 | The sequence is drawn from the root and runs from the root to a leaf. The root is active and the cursor at 0. Tree and bouncing are kept. |
| `Treequencer.AdvanceWalk` | src/treequencer.cpp:492-506 | The cursor moves as `Advance` says. The node under it becomes active, and the light moves to it from the old active node. |
| `Treequencer.SequenceClock` | src/treequencer.cpp:484-510 | A sequence is drawn from the root if none exists, otherwise it is kept. The cursor moves as `SequenceStep` says. The node under it is active and lit, and only lights change. With Bounce off, nothing starts bouncing. |
| `Treequencer.MovedTwice` | src/treequencer.cpp:492-509 | After two moves of the light, the first node is dark unless the light came back to it, and only the three nodes involved can change light. |
| `Treequencer.SequenceClockLights` | src/treequencer.cpp:484-510 | A clock unlights the node the walk was on (the root, when no sequence existed) unless the cursor came back to it. Besides the new node, only the sequence's last node, passed over on turning round, can change light. |
| `Treequencer.SwitchWalk` | src/treequencer.cpp:530-540 | With Bounce off the walk stops bouncing. A reset moves the light to the root, makes it active and puts the cursor at 0. Step mode drops the sequence. Without a reset, tree, active node and cursor are kept. |
| `Treequencer.GateWalk` | src/treequencer.cpp:544-551 | In Step mode: the node, bouncing and pulse are those of `GateStep` on the old walk, and the light moves to the new node. In Sequence mode: a new sequence from the root, the root active and lit, the cursor at 0, no pulse. The active node ends lit. |
| `Treequencer.TriggerWalk` | src/treequencer.cpp:544-557 | The step pulse starts exactly when a gate or a sequence clock arrives. With neither, nothing changes. After a step the active node is lit. With Bounce off nothing starts bouncing, Step mode keeps the sequence, and only lights change in the tree. |
| `Treequencer.TriggerGate` | src/treequencer.cpp:544-551 | A gate alone: in Step mode the walk takes `GateStep`'s step and the light moves with it. In Sequence mode a new sequence is drawn and the root is active and lit. |
| `Treequencer.TriggerClock` | src/treequencer.cpp:544-557 | A sequence clock alone does what `SequenceClock` does. With a gate, the cursor takes one `SequenceStep` from 0 into the freshly drawn sequence. |
| `Treequencer.Treequencer.constructor` | src/treequencer.cpp:419-423 | The root is filled to depth 1 (full, height 1), lit and active, with no sequence and all switches off. |
| `Treequencer.Treequencer.ResetActiveNode` | src/treequencer.cpp:430-434 | The new tree is `Moved(old tree, old active node, root)`: the old active node is unlit and the root lit. The root is active. Nothing else changes. |
| `Treequencer.Treequencer.ProcessGateStep` | src/treequencer.cpp:455-481 | The new walk and pulse are `GateStep` of the old walk. At an inner node: step into the chosen child. At a leaf: pulse, then climb (Bounce) or go to the root. When bouncing: climb to the parent, or at the root stop bouncing and step forward. The tree does not change. |
| `Treequencer.Treequencer.StepForward` | src/treequencer.cpp:456-473 | The not-bouncing branch: the new walk and pulse are `ForwardStep` of the old walk. |
| `Treequencer.Treequencer.StepBack` | src/treequencer.cpp:474-480 | The bouncing branch: the new walk and pulse are `GateStep` of the old walk. |
| `Treequencer.Treequencer.NewSequence` | src/treequencer.cpp:486-489 | The new walk is `NewSequenceWalk` of the old one: the sequence is `getWholeSequence(root)`, the root is active, and the cursor is at 0. |
| `Treequencer.Treequencer.AdvancePass` | src/treequencer.cpp:492-506 | The new walk is `AdvanceWalk` of the old one. The cursor moves as `Advance` says. The new tree is `Moved(old tree, old active node, node under the cursor)`, and that node becomes active. |
| `Treequencer.Treequencer.ProcessSequence` | src/treequencer.cpp:484-510 | With `newSequence`, the new walk is `NewSequenceWalk` of the old one, with no pulse. Otherwise the walk and pulse are `SequenceClock` of the old walk: a sequence is drawn if none exists, the cursor moves as `SequenceStep` says, and the node under it is active and lit. The light leaves the old active node, or the root when a sequence had to be drawn, so the old active node then stays lit (`SequenceClockLights`). |
| `Treequencer.Treequencer.ClockSequence` | src/treequencer.cpp:490-510 | The new walk and pulse are `SequenceClock` of the old walk. |
| `Treequencer.Treequencer.Process` | src/treequencer.cpp:512-568 | One sample. The new walk and both pulses are `TriggerWalk` of `SwitchWalk` of the old walk. The gate is the one `GateFires` lets through, and the clock is the one Hold lets through in Sequence mode. Toggle inputs flip Hold/Type/Bounce, and with Bounce off nothing bounces. Hold blocks steps and pulses. The gate channel and V/Oct (output / 12) follow the active node. |
| `Treequencer.Treequencer.ReadSwitches` | src/treequencer.cpp:516-542 | The toggles flip their switches. The new walk is `SwitchWalk` of the old one. The gate step is due exactly as `GateFires` says: a reset cancels the gate edge, but in Step mode a clock still steps. The sequence clock is the clock edge Hold lets through, in Sequence mode. |
| `Treequencer.Treequencer.ResetStep` | src/treequencer.cpp:534-537 | The new tree is `Moved(old tree, old active node, root)`. The root is active and the cursor at 0. Nothing else changes. |
| `Treequencer.Treequencer.ResetAndDrop` | src/treequencer.cpp:534-540 | The new walk is `SwitchWalk` of the old one (which has stopped bouncing if Bounce is off). |
| `Treequencer.Treequencer.FlipSwitches` | src/treequencer.cpp:527-530 | Each toggle edge flips its switch. Bouncing stops when Bounce is off. |
| `Treequencer.Treequencer.DropSequence` | src/treequencer.cpp:540 | Step mode clears the drawn sequence. |
| `Treequencer.Treequencer.Trigger` | src/treequencer.cpp:544-557 | The new walk, step pulse and end pulse are `TriggerWalk` of the old walk (see `TriggerGate` and `TriggerClock`). A step happens exactly when a gate or a sequence clock arrived, and it lights the active node. Switches stay, and Step mode leaves the sequence alone. |
| `Treequencer.Treequencer.GateTrigger` | src/treequencer.cpp:544-551 | The new walk and pulse are `GateWalk` of the old walk. |
| `Treequencer.Treequencer.ClockTrigger` | src/treequencer.cpp:553-556 | The new walk and pulse are `SequenceClock` of the old walk, with the node under the cursor lit once more. |
| `Treequencer.Treequencer.EditOutput` | src/treequencer.cpp:674-676 | Accepted exactly when the text is shorter than 4 characters and passes `isInteger`. The node's output then becomes the typed number minus 1. Otherwise nothing changes. |
| `Treequencer.Treequencer.EditChance` | src/treequencer.cpp:683-685 | Accepted exactly when the text is shorter than 4 characters and is a number. The node's chance then becomes the clamped value. |
| `Treequencer.Treequencer.Preview` | src/treequencer.cpp:690-697 | The new tree is `PreviewLights(old tree, node, old active node)`: the node is lit, then the old active node unlit, so previewing the active node leaves it dark. The node becomes active and Hold is on. |
| `Treequencer.Treequencer.AddChildAt` | src/treequencer.cpp:701-706 | Offered below two children and depth 21. The node gains one child at the end, one level down (at most 21), and the tree stays valid. |
| `Treequencer.Treequencer.GenerateAt` | src/treequencer.cpp:716-725 | The node is replaced by `generateSequencesToDepth(8)` of it, and the tree stays valid. |
| `Treequencer.Treequencer.RemoveNode` | src/treequencer.cpp:708-714 | The new tree is `Remove(Moved(old tree, old active node, root), node)`: the light moves to the root, then the subtree leaves the tree. The root is active and the sequence is dropped. The node count drops by the removed subtree's size. |
| `Treequencer.Treequencer.DataFromJson` | src/treequencer.cpp:592-599 | With "rootNode": the root's children are replaced by the loaded tree, and the root is active. The model also drops the sequence (see Left out). Without "rootNode", nothing changes. |
| `NodeDisplay.IsInsideBox` | src/treequencer.cpp:648-663 | The point lies within the box, edges included. |
| `NodeDisplay.FindIsFirstInPreOrder` | src/treequencer.cpp:729-741 | `findNodeClicked` returns the first node, in pre-order, whose box holds the point. |
| `NodeDisplay.PreOrderHasEveryNode` | src/treequencer.cpp:729-741 | The search visits every node of the tree. |
| `NodeDisplay.FindNodeClickedMeaning` | src/treequencer.cpp:729-741 | A found node's box holds the click. When nothing is found, no node's box holds it. |
| `NodeDisplay.HeapIndexInjective` | src/treequencer.cpp:1005-1014 | Two nodes on the same level of a binary tree never share a bin slot. |
| `NodeDisplay.Display.InitBins` | src/treequencer.cpp:941-953 | There are `depth + 1` bins, and bin `d` holds 2^(d+1) null slots. |
| `NodeDisplay.Display.GatherNodesForBins` | src/treequencer.cpp:1005-1014 | Every node of the subtree lands in the slot of its path on its level, and no slot outside the subtree changes. |
| `NodeDisplay.Display.RebuildBins` | src/treequencer.cpp:937-953 | There are `maxDepth + 1` bins. Every node of the tree is in the slot of its path, and every filled slot holds a node of that level. |
| `SyncMute.ResetMessage` | src/syncmute.cpp:86-88 | A reset message from the sender. |
| `SyncMute.ButtonMessage` | src/syncmute.cpp:90-92 | A button message for the mute. |
| `SyncMute.ClockMessage` | src/syncmute.cpp:94-96 | A clock message. A missing tick count is the 64-bit maximum. |
| `SyncMute.ButtonAutoPress` | src/syncmute.cpp:98-100 | An auto-press message with its value. |
| `SyncMute.Send` | src/syncmute.cpp:115-127 | Only queues change. |
| `SyncMute.Receive` | src/syncmute.cpp:129-139 | Only queues change. |
| `SyncMute.SendDelivers` | src/syncmute.cpp:115-127 | A sent message is appended once to the queue of exactly the modules on the accepting chains to the left and right, and never to the sender's own queue. |
| `SyncMute.ReceiveDelivers` | src/syncmute.cpp:129-139 | A received message ends up in exactly the queues of the accepting chain that starts at the receiver. |
| `SyncMute.TargetsSplit` | src/syncmute.cpp:115-127 | The modules reached are the left chain plus the right chain, which are disjoint and exclude the sender. |
| `SyncMute.ControlledReceives` | src/syncmute.cpp:129-139 | A controlled module gets every message its controller sends, except clock messages while its own clock is patched. |
| `SyncMute.MutualControlDrops` | src/syncmute.cpp:131-132 | Two modules that control each other drop each other's messages. |
| `SyncMute.SigsStringsLabel` | src/syncmute.cpp:189 | The label table holds "/n" for ratio -n, "Immediate" for 0 and "Xn" for n. |
| `SyncMute.Trunc` | src/syncmute.cpp:321-322 | Float-to-int drops the fraction, rounding toward zero. |
| `SyncMute.Clamp` | src/syncmute.cpp:273-274 | `math::clamp` lands in [lo, hi] and keeps values already inside. |
| `SyncMute.RangeKeepsRatioInBounds` | src/syncmute.cpp:273-298 | With the clamped ranges, the ratio plus any offset drawn stays within -32..32. |
| `SyncMute.FadeSpeed` | src/syncmute.cpp:309-310 | The fade speed is at least 25 per second. |
| `SyncMute.NextVolume` | src/syncmute.cpp:304-312 | Volume stays in [0, 1]. Without a soft transition it jumps to the target. With one it moves monotonically toward the target, by at least 25·dt unless it has arrived. |
| `SyncMute.FadeProgress` | src/syncmute.cpp:304-312 | After n samples the fade has covered n·25·dt, or has arrived. |
| `SyncMute.FadeArrives` | src/syncmute.cpp:304-312 | Once n·25·dt >= 1, the volume is at the target. |
| `SyncMute.SavedMuteFields` | src/syncmute.cpp:315-324 | Each key of a saved mute finds its own value. |
| `SyncMute.MuteJsonRoundTrip` | src/syncmute.cpp:315-333 | Save then load restores the switches and light opacity exactly, and the ratio ranges truncated. |
| `SyncMute.Mute.constructor` | src/syncmute.cpp:236-253 | The field defaults: unmuted, no swap pending, full volume, soft transition, ranges 0. |
| `SyncMute.Mute.Step` | src/syncmute.cpp:259-313 | One sample. The button's rising edge arms a swap and is announced, and an auto-press change is announced. Ranges are clamped. A swap point flips the mute and draws an offset that keeps the ratio in range. Auto-press re-arms. The volume moves as `NextVolume`. |
| `SyncMute.Mute.ReadControls` | src/syncmute.cpp:260-274 | The effective ratio, the button edge, the announcements and the clamped ranges. |
| `SyncMute.Mute.Settle` | src/syncmute.cpp:288-312 | The swap point and the swap, then the volume. |
| `SyncMute.Mute.ReadButtons` | src/syncmute.cpp:262-268 | A rising edge toggles the pending swap and sends a button message. An auto-press change sends its message. |
| `SyncMute.Mute.ClampRanges` | src/syncmute.cpp:273-274 | Both ranges are clamped into what the ratio switch allows. |
| `SyncMute.Mute.SwapOnHit` | src/syncmute.cpp:294-302 | A pending swap on a swap point flips the mute and sets the offset (drawn, or 0 without ranges). Auto-press re-arms. |
| `SyncMute.Mute.FromJson` | src/syncmute.cpp:326-333 | Each present key overwrites its field, and missing keys keep theirs. |
| `SyncMute.Handle` | src/syncmute.cpp:143-154 | Reset: ticks and sub-clock go to 0 and it is passed on. Button: toggles that mute's swap. Auto: sets that mute's switch. Clock: ignored while the own clock is patched, else takes the time and any tick count. Nothing else changes. |
| `SyncMute.ButtonParity` | src/syncmute.cpp:145 | A pending swap ends flipped exactly when an odd number of its button messages arrived. |
| `SyncMute.ClockKeptWhileConnected` | src/syncmute.cpp:147-148 | While the own clock is patched, no message changes the clock length. |
| `SyncMute.ResetsPassedOn` | src/syncmute.cpp:144 | Each reset handled is passed on once, in order, and nothing else is passed on. |
| `SyncMute.DrainPassAsWritten` | src/syncmute.cpp:142-156 | A pass removes the head message, or removes nothing. |
| `SyncMute.DrainStallsAsWritten` | src/syncmute.cpp:142-156 | As written, a clock message at the head while the own clock is patched is never removed. The loop makes no progress however many passes it runs. |
| `SyncMute.SyncMute.constructor` | src/syncmute.cpp:191-234 | Eight distinct fresh mutes numbered 0–7, a 0.5 s clock, and the reset of `onReset` sent. |
| `SyncMute.SyncMute.OnReset` | src/syncmute.cpp:344-351 | Ticks and sub-clock are 0, the clock is ignored for a moment, and a reset is sent. |
| `SyncMute.SyncMute.ProcessMessages` | src/syncmute.cpp:141-157 | The queue is emptied, and the state is the fold of `Handle` over the old queue. |
| `SyncMute.SyncMute.HandleFront` | src/syncmute.cpp:143-154 | The head message changes the state as `Handle` says. |
| `SyncMute.SyncMute.ToggleSwap` | src/syncmute.cpp:145 | Only that mute's pending swap flips. |
| `SyncMute.SyncMute.SetAutoPress` | src/syncmute.cpp:146 | Only that mute's auto-press changes. |
| `Discombobulator.Usable` | src/discombobulator.cpp:110-114 | The connected inputs, each once, ascending. |
| `Discombobulator.Pick` | src/discombobulator.cpp:123 | `randomInt(0, n-1)` lies in the pool. |
| `Discombobulator.Without` | src/discombobulator.cpp:126 | `erase` leaves the pool one entry shorter. |
| `Discombobulator.RemovePermutes` | src/discombobulator.cpp:126 | The erased entry and what remains make up the old pool. |
| `Discombobulator.Deal` | src/discombobulator.cpp:119-128 | The deal gives as many sources as there are usable inputs. |
| `Discombobulator.DealPermutes` | src/discombobulator.cpp:119-128 | The deal is a permutation of the pool. |
| `Discombobulator.DealDistinct` | src/discombobulator.cpp:119-128 | Dealt from distinct inputs, no input is dealt twice. |
| `Discombobulator.ShuffleIsPermutation` | src/discombobulator.cpp:119-128 | After a shuffle the usable outputs read the usable inputs, each exactly once. |
| `Discombobulator.Decay` | src/discombobulator.cpp:134 | A fade never goes below 0, never grows for dt in [0, 1], and loses exactly the fraction dt. |
| `Discombobulator.Marked` | src/discombobulator.cpp:124 | Each moved output is fully fading on its old source, and every other fade is unchanged. |
| `Discombobulator.Decayed` | src/discombobulator.cpp:130-137 | Every fade of another input decays. |
| `Discombobulator.NoFadeNoBleed` | src/discombobulator.cpp:131-137 | With all fades at 0 nothing bleeds in. |
| `Discombobulator.SettledOutputs` | src/discombobulator.cpp:140-142 | With no fade left, each output carries exactly its routed input. |
| `Discombobulator.FadesStayInUnit` | src/discombobulator.cpp:119-138 | A sample keeps every fade in [0, 1] when dt is in [0, 1]. |
| `Discombobulator.Discombobulator.constructor` | src/discombobulator.cpp:96-99 | Every output starts on its own input, with nothing fading. |
| `Discombobulator.Discombobulator.Shuffle` | src/discombobulator.cpp:119-128 | The usable outputs' sources become the deal. Other outputs keep theirs. Old sources are marked fully fading. |
| `Discombobulator.Discombobulator.DealOne` | src/discombobulator.cpp:123-126 | One loop turn keeps the dealing invariant. |
| `Discombobulator.Discombobulator.Reassign` | src/discombobulator.cpp:124-125 | Marks the old source fully fading, then sets the new one. |
| `Discombobulator.Discombobulator.DecayCell` | src/discombobulator.cpp:133-135 | One cell decays and its weighted input is added. |
| `Discombobulator.Discombobulator.DecayRow` | src/discombobulator.cpp:132-137 | Row i decays, and the result is the other inputs weighted by the new fades. |
| `Discombobulator.Discombobulator.DecayAll` | src/discombobulator.cpp:130-138 | The fades become `Decayed`, with each output's weighted sum. |
| `Discombobulator.Discombobulator.Mix` | src/discombobulator.cpp:140-142 | The outputs are `Outputs` of the routing and fades. |
| `Discombobulator.Discombobulator.Blink` | src/discombobulator.cpp:144-145 | Lit by the gate, else it dims by 0.0001 while above 0. |
| `Discombobulator.Discombobulator.ShuffleOnGate` | src/discombobulator.cpp:119-128 | Shuffles only when the gate fired. |
| `Discombobulator.Discombobulator.Sample` | src/discombobulator.cpp:119-145 | The shuffle, decay, mix and blink of a sample with a connected input. |
| `Discombobulator.Discombobulator.Process` | src/discombobulator.cpp:103-147 | Without a connected input nothing changes. Otherwise routing, fades, outputs and blink are as specified. |
| `Nandomizer.NextFades` | src/nandomizer.cpp:131-138 | One fade per input. Its meaning is stated by `NextFadesInUnit` and `SilentStaysSilent`. |
| `Nandomizer.PickIsConnected` | src/nandomizer.cpp:128 | After a gate the active input is a connected one. |
| `Nandomizer.NextFadesInUnit` | src/nandomizer.cpp:131-138 | Fades stay in [0, 1], the active one is at 1, and the others never grow. |
| `Nandomizer.SilentStaysSilent` | src/nandomizer.cpp:133 | A fade at 0 stays at 0 while its input is not active. |
| `Nandomizer.Nandomizer.constructor` | src/nandomizer.cpp:59-65 | Input 1 is active, nothing fades, and the lights are off. |
| `Nandomizer.Nandomizer.ScanAndLight` | src/nandomizer.cpp:117-124 | The result is the connected inputs, and each light shows its input's connection. |
| `Nandomizer.Nandomizer.FadeOthers` | src/nandomizer.cpp:130-138 | The fades become `NextFades`, and the result is the other inputs weighted by the new fades. |
| `Nandomizer.Nandomizer.Blink` | src/nandomizer.cpp:142-144 | Lit by the gate, else it dims by 0.0001 while above 0. |
| `Nandomizer.Nandomizer.Process` | src/nandomizer.cpp:110-146 | Without a connected input only the lights change and there is no output. Otherwise a gate picks a connected input, the fades advance, and the output is the active input plus the fading ones times `fadeAmnt`. |
| `ColorBG.ThemesFiledByName` | src/colorBG.hpp:14-18 | Exactly three themes, each filed under its own name. |
| `ColorBG.NewEntry` | src/colorBG.hpp:88-92 | A new label is enabled, except that a "nondefault" label shows only under a named theme. |
| `ColorBG.Recoloured` | src/colorBG.hpp:72-76 | Keeps the label count. |
| `ColorBG.RecolouredEffect` | src/colorBG.hpp:72-76 | Every label gets the colour and nothing else changes. Recolouring twice equals recolouring with the last colour. |
| `ColorBG.WithGroupVisibility` | src/colorBG.hpp:98-102 | Keeps the label count. |
| `ColorBG.GroupVisibilityEffect` | src/colorBG.hpp:98-102 | Exactly the group's labels take the visibility, and others are untouched. |
| `ColorBG.GroupVisibilityIdempotent` | src/colorBG.hpp:98-102 | Setting visibility twice is setting it once. |
| `ColorBG.Themed` | src/colorBG.hpp:78-86 | Keeps the label count. |
| `ColorBG.ThemedEffect` | src/colorBG.hpp:78-86 | All labels take the font colour, "nondefault" shows exactly under a named theme, and other labels keep their visibility. |
| `ColorBG.AddedLabelFollowsTheme` | src/colorBG.hpp:88-92 | A label added under the current theme looks as if it had been there when the theme was chosen. |
| `ColorBG.ColorBG.constructor` | src/colorBG.hpp:44-70 | Size as given, default colours, no labels, no theme. |
| `ColorBG.ColorBG.SetFontColor` | src/colorBG.hpp:72-76 | The label list becomes `Recoloured`. |
| `ColorBG.ColorBG.SetTextGroupVisibility` | src/colorBG.hpp:98-102 | The label list becomes `WithGroupVisibility`. |
| `ColorBG.ColorBG.SetTheme` | src/colorBG.hpp:78-86 | Takes the theme's name and colours, and the labels become `Themed`. |
| `ColorBG.ColorBG.AddText` | src/colorBG.hpp:88-92 | Appends `NewEntry` under the current theme and returns its index. |
| `ColorBG.ColorBG.UpdateText` | src/colorBG.hpp:94-96 | Only that label's text changes. |
| `QuatOsc.FClamp` | src/quatosc.cpp:149-151 | The result is in [min, max] and keeps values inside. With min > max it is max. |
| `QuatOsc.FClampIdempotent` | src/quatosc.cpp:149-151 | Clamping twice is clamping once. |
| `QuatOsc.Pushed` | src/quatosc.cpp:320-323 | Writing keeps the ring's length. |
| `QuatOsc.PushedKeepsSpare` | src/quatosc.cpp:311-323 | Slot `MAX_HISTORY` of the `MAX_HISTORY + 1` array is never written. |
| `QuatOsc.PushedHolds` | src/quatosc.cpp:320-323 | The ring keeps the newest `MAX_HISTORY` items in the slots they were written to. |
| `QuatOsc.DrawSlots` | src/quatosc.cpp:338 | The loop visits `MAX_HISTORY - 1` slots. |
| `QuatOsc.DrawSlotsCover` | src/quatosc.cpp:338-344 | The loop visits every used slot except the cursor, each once, and never the spare slot. |
| `QuatOsc.DrawShowsNewest` | src/quatosc.cpp:331-344 | After at least 399 writes, the loop draws the newest 399 items oldest first. |
| `QuatOsc.VecHistory.constructor` | src/quatosc.cpp:311-314 | All slots at the origin, cursor 0. |
| `QuatOsc.VecHistory.AddToHistory` | src/quatosc.cpp:320-323 | Writes at the cursor and advances it modulo `MAX_HISTORY`. |
| `QuatOsc.VecHistory.Drain` | src/quatosc.cpp:331-334 | Moves all but the newest queued point into the ring, oldest first. |
| `QuatOsc.VecHistory.DrawPath` | src/quatosc.cpp:338-344 | The points the loop strokes, in visiting order. |
| `QuatOsc.ClockStaysInRange` | src/quatosc.cpp:217-227 | A frequency in [0.001, 1000] stays in range. |
| `QuatOsc.ClockGuard` | src/quatosc.cpp:217-227 | The frequency changes only to 2 (no clock) or to an accepted measurement. |
| `QuatOsc.QuatOsc.constructor` | src/quatosc.cpp:88-94 | Clock 2 Hz, the starting LFO phases, identity rotation, no V/Oct input seen. |
| `QuatOsc.QuatOsc.ResetPhase` | src/quatosc.cpp:186-193 | The rotation goes to identity. With `resetLfo` the LFO phases restart, otherwise they are kept. |
| `QuatOsc.QuatOsc.TrackConnections` | src/quatosc.cpp:204-215 | Connection flags follow the inputs. Any change resets rotation and LFO phases, and no change keeps them. |
| `QuatOsc.QuatOsc.ClockStep` | src/quatosc.cpp:217-227 | The frequency becomes `NextClockFreq`. |

## Findings

| source | as written | input that shows it | evidently intended | confidence | as-written member | corrected member |
|---|---|---|---|---|---|---|
| src/treequencer.cpp:493-505 | `sequencePos` is `size_t`, and `sequencePos += -1` wraps at 0, so the `<= 0` test misses and `activeSequence[sequencePos]` reads far out of bounds | a one-node sequence with Bounce on; or a reset (cursor 0) while bouncing, then a clock | step back to 0, stop bouncing and pulse | high (not executed) | `Treequencer.AsWrittenOverruns` | `Treequencer.SequenceStepCases` |
| src/syncmute.cpp:148 | `continue` skips a clock message without `pop()`, so the `while` loop sees it again forever | own clock patched, and a clock message queued (e.g. queued before the cable was plugged) | drop the message and go on | high (not executed) | `SyncMute.DrainStallsAsWritten` | `SyncMute.SyncMute.ProcessMessages` |
| src/treequencer.cpp:56-57 | `find_first_not_of` returns npos on a blank string, which is not `s.size()`, so the scan reads `s[npos]` | the empty string, or "  ", typed in the chance field | reject blank text | high (not executed) | `TextInput.BlankStringPassesGuard` | `TextInput.IsNumber` |
| src/treequencer.cpp:121-125 | `abs(note % 12)` mirrors negative notes onto positive pitch classes | `getNoteString(-1)` is "C#", like `getNoteString(1)`. No caller in this build passes a negative note: the node label at line 882 is commented out, and `getTransposedBy` is never called | "B", the pitch class of -1 | low: latent (not executed) | `Scale.AsWrittenMirrorsNegativeNotes` | `Scale.NoteStringRoundTrip` |
| src/treequencer.cpp:708-714 | Remove deletes the node (`delete this`, line 249) but keeps `activeSequence`, whose pointer to it then dangles | root with one child, Sequence mode, sequence [root, child], then Remove the child and send a clock | drop the sequence | high (not executed) | `Treequencer.KeptSequenceDangles` | `Treequencer.Treequencer.RemoveNode` |
| src/treequencer.cpp:592-599 | `dataFromJson` clears the root's children without deleting them and keeps `activeSequence`. The old tree leaks, and the kept sequence goes on lighting and playing its nodes, which are no longer in the tree | Sequence mode with a drawn sequence, then a patch or preset load, then only clocks (only a gate draws a new sequence) | drop the sequence (and free the old children) | medium (not executed) | `Treequencer.KeptSequenceDangles` | `Treequencer.Treequencer.DataFromJson` |

The rest of the model uses the corrected members:
- `Treequencer.Treequencer.ProcessSequence` keeps a signed cursor.
- `SyncMute.SyncMute.ProcessMessages` removes every message it handles.
- `Treequencer.Treequencer.EditChance` uses `TextInput.IsNumber`.
- `Scale.GetTransposedBy` names the root with `Scale.GetNoteString`.
- `Treequencer.Treequencer.RemoveNode` and `Treequencer.Treequencer.DataFromJson` drop the drawn sequence.

## Left out

- Drawing (NanoVG calls, node layout and scaling, colours, fonts) is rendering only. The widgets' `draw` methods and `cacheNodePositions` are not modelled; the bins they read are.
- `ColorBGSimple` and `src/colorBG.cpp` hold only drawing code.
- QuatOSC's LFO and quaternion pipeline (`processLFO`, `calcVOctFreq`, `smoothDephase`, the rotation, sampling of points, output) is floating-point trigonometry. The call to `resetPhase` inside `processLFO` (src/quatosc.cpp:176) is covered by `ResetPhase` alone.
- QuatOsc: `dataFromJson` (src/quatosc.cpp:282) can set `clockFreq` outside [0.001, 1000]. `ClockStaysInRange` only covers frequencies that start in range.
- QuatOsc.QuatOsc.ClockStep: the timer is the input `period` (the measured time since the last edge); `dsp::Timer` is not part of this model.
- QuatOsc.VecHistory.Drain: the queue filled by the audio thread is a parameter and the kept rest is the result. The cross-thread `reading` flag is not modelled: only the sequential effect of one drain is.
- Treequencer: `audioThreadQueue`/`onAudioThread` are not modelled. Each menu action is a method applied at once, which is the order the queue replays them in.
- Randomness (`randomInt`, `randomInteger`, `randFloat`) is not modelled: draws are parameters. Draws of a bounded integer are any natural reduced modulo the range, which is not a uniform distribution.
- Scale: `getNextInSequence` and `generateRandom` (src/treequencer.cpp:83-119) are not modelled. `generateRandom` reads an uninitialised vector, and both rest on draws. In `SequenceGenerator.Generate` the new outputs they compute are the parameter `next`.
- Schmitt triggers and pulse generators are not modelled: triggers are booleans saying whether an edge fired this sample, and `Treequencer.Treequencer.Process` returns whether a pulse was started rather than the pulse's 1 ms voltage.
- Floats are modelled as reals: rounding is not modelled, and 0.001f, 0.1f, 0.9f and 0.0001f are taken as the exact decimals.
- SyncMute.Mute.Step: the `fmod` clock-phase detection (src/syncmute.cpp:276-286, `accumulatedTime`) is the input `phaseHit`. Its floating-point modulo is not modelled.
- SyncMute: `process` (src/syncmute.cpp:353-403) is not modelled as a whole. Its clock generation from the timer and its output scaling are floating point and timing, while `Step`, `OnReset` and `ProcessMessages` cover its state changes.
- SyncMute: routing between modules is modelled on a row of module values (`Row`) rather than on objects, because a send changes other modules' queues. Aliasing between modules is therefore not captured.
- SyncMute: the module-level `dataToJson`/`dataFromJson` (src/syncmute.cpp:405-432) and the knob widgets are not modelled; per-mute save and load are.
- SyncMute: `dirtyable` and `ThreadQueue` are not part of this model. A `dirtyable` is taken to report a change since its last check, and the queue to be first-in first-out.
- Nandomizer.Nandomizer.Process: the blink light is updated before the fades, not after. Neither reads the other, so the end state is the same.
- Nandomizer: `rmsValue` (src/nandomizer.cpp:91-104) is never called. `fclamp` (src/nandomizer.cpp:106-108, with its arguments swapped) is never called either.
- Treequencer.Treequencer.EditChance: the value `atof` reads from the text is the parameter `parsed`. `atof` itself is not modelled.
- Treequencer.Treequencer.AddChildAt: requires the menu's guard (fewer than two children, depth below 21), since the item is offered only then.
- Treequencer.Treequencer.DataFromJson: drops the drawn sequence on load. The C++ keeps it and goes on stepping through the nodes of the old, cleared tree (see Findings). Paths name nodes of the current tree only, so a sequence into a detached tree cannot be represented.
- Treequencer: saving of the view settings (scale, offsets, colour mode, theme) in `dataToJson`/`dataFromJson` is not modelled; the tree is.
- The docs page script (`docs/script.js`) and the other modules of the plugin are not part of this model.
