# Robot-Platform core, modelled in Dafny

Robot-Platform is a robot-control framework. Rust nodes (planners, controllers,
simulator bridges, sensor releasers) exchange JSON messages over queues and a
ZeroMQ socket. A pybullet simulator written in Python answers them. This project
models the parts of it that are small sequential rules, and proves what those
rules promise:

- **The simulator exchange.** Covers the Python per-cycle loop (`sim_pybullet.py`), its
  `Robot`/`Panda` command dispatch and state report, and the older loop of
  `crates/simulator/scripts`. It also covers the three Rust `bullet` simulator nodes and the
  message unions that cross the wire (`NodeMessage`, `DRobotState`,
  `TaskState`, `ControlCommand`, `Constraint`, `iso_to_vec`). The serde
  encodings are modelled with their JSON text. Every round trip is proved for any spelling of
  numbers that reads back the numbers the document holds, and such a spelling is shown to exist.
- **Obstacle releasing.** The per-id pose queues of the obstacle releaser node, plus the
  obstacle sensor.
- **Scheduling.** The task DAG (in-degrees and open set), the node-state counters and
  the named planner queues.
- **Robot records.** The series-robot state and parameters, the Panda constants, the
  gripper, `RobotBranch` index bookkeeping with `merge`/`split`, and the robot
  registry.
- **Registries.** The string registries for nodes, planners, controllers and sensors.
- **Control.** The PID, impedance, position and interp nodes, with the matching controller
  and planner threads. Also the three linear-interpolation functions.
- **Numeric structure.** Dense-to-CSC encoding with a decode round trip, and the
  shape and symmetry of the weighted cost matrix.
- **Log readers.** The two log readers under `scripts/print`.

Conventions:

- `f64` is `real`, so no rounding is modelled.
- `usize` subtraction that would wrap is the debug-build panic.
- A Rust `panic!`/`unwrap` failure, or a raised Python exception, is an `Err`.
  The error carries the panic text, or the exception's class name followed by its detail.
- Sockets, files, the clock, the physics engine, regular expressions, `float()`,
  `fromisoformat` and `json.loads` are either parameters or explicit state.
- Where the code and its documentation disagree, the model follows the code. For example,
  `panda.rs:27` sets a `control_message` on the series-robot state that the
  shown state record lacks; the model keeps that field.
- The JSON layouts of nalgebra types come from serde and nalgebra, not from
  this repository. The model uses them as those libraries define them:
  - `DVector` is `[[data], nrows, null]`.
  - `SVector` and `Vec<f64>` are flat arrays.
  - `Isometry3` is `{"rotation": [i, j, k, w], "translation": [x, y, z]}`.
  - Enums are externally tagged.

Modules, one per file: `Wrappers`, `Json`, `Py`, `Linalg`, `Messages`,
`Robots`, `RobotBranch`, `Bullet`, `PyRobot`, `PySim`, `Exchange`,
`PyLegacy`, `Obstacles`, `TaskDag`, `NodeLifecycle` (node_state.dfy),
`TargetNodes`, `ControlLaw`, `Interpolation`, `Registries`, `Nodes`,
`Controllers`, `Optimize` (csc.dfy) and `Logs`.

## Model

| member | source | states |
|---|---|---|
| RobotBranch.Push | src/robot/src/robots/robot_branch.rs:48-55 | the member is appended; the first push seeds the offsets with 0, every push appends the previous last offset plus the member's dof |
| RobotBranch.PushValid | src/robot/src/robots/robot_branch.rs:48-55 | after a push the offsets are the running sums of the members' dofs, one more offset than members |
| RobotBranch.PushAllValid | src/robot/src/robots/robot_branch.rs:48-55 | any sequence of pushes from a valid branch keeps that invariant and appends the members in order |
| RobotBranch.Dof | src/robot/src/robots/robot_branch.rs:213-215 | `dof` fails exactly on a branch with no offsets (the unwrap of `last()` panics) |
| RobotBranch.DofIsSumPlusOne | src/robot/src/robots/robot_branch.rs:213-215 | on a valid non-empty branch, `dof` is the summed dofs of the members plus one |
| RobotBranch.CopyFrom | src/robot/src/robots/robot_branch.rs:61-67 | the copy loop keeps the buffer's length |
| RobotBranch.CopyStep | src/robot/src/robots/robot_branch.rs:63-66 | one `copy_from` overwrites exactly the rows at the running offset |
| RobotBranch.CopyFromIsConcat | src/robot/src/robots/robot_branch.rs:58-69 | the copy loop succeeds iff the concatenated vectors fit after the offset, and then places the concatenation there, leaving the other rows as they were |
| RobotBranch.MergeIsConcatPadded | src/robot/src/robots/robot_branch.rs:58-69 | `merge` yields the concatenation of the vectors padded with zeros to `dof()` |
| RobotBranch.SplitWith | src/robot/src/robots/robot_branch.rs:72-80 | splitting fails on empty offsets (`len() - 1` underflows) or a slice past the end; otherwise one slice per consecutive offset pair, each the rows from offset i to offset i+1 plus the extra rows |
| RobotBranch.MergedSlice | src/robot/src/robots/robot_branch.rs:58-69 | member i's vector sits in the merged vector exactly between offsets i and i+1 |
| RobotBranch.MergeMatching | src/robot/src/robots/robot_branch.rs:58-69 | merging one vector of the right length per member gives their concatenation followed by a single zero row (the `+ 1` in `dof`) |
| RobotBranch.SplitMerge | src/robot/src/robots/robot_branch.rs:72-80 | the corrected split undoes merge: every member gets back exactly its own vector |
| RobotBranch.SplitAsWrittenOverlaps | src/robot/src/robots/robot_branch.rs:74-77 | as written, every slice is one row longer than its member's dof, so splitting a merged vector never returns the vectors merged |
| RobotBranch.SplitAsWrittenCounterexample | src/robot/src/robots/robot_branch.rs:76 | for a single one-dof member holding 5.0, merge gives [5.0, 0.0], the written split returns [[5.0, 0.0]], the corrected split [[5.0]] |
| RobotBranch.SetParts | src/robot/src/robots/robot_branch.rs:22-24 | the `zip` pairing: member i takes part i, members past the last part are untouched, the offsets are kept |
| RobotBranch.SetSplit | src/robot/src/robots/robot_branch.rs:18-28 | the split setters, calling the written `split`, succeed iff it does and hand its slices to the members in order |
| RobotBranch.AsWrittenPart | src/robot/src/robots/robot_branch.rs:72-80 | slice i of the written split of a merged vector is member i's vector followed by the next row |
| RobotBranch.SetSplitOfMerge | src/robot/src/robots/robot_branch.rs:18-28 | as written, setting a merged vector of joint positions gives each member its own part plus one more row, and the last member its part plus the zero pad |
| RobotBranch.SetSplitCorrected | src/robot/src/robots/robot_branch.rs:18-28 | the split setters over the corrected `split` succeed iff it does and hand its slices to the members |
| RobotBranch.SetSplitCorrectedOfMerge | src/robot/src/robots/robot_branch.rs:18-28 | with the corrected split, setting a merged vector of joint positions gives each member exactly its own part |
| RobotBranch.Reset | src/robot/src/robots/robot_branch.rs:284-288 | reset resets every member and keeps the offsets |
| RobotBranch.ResetKeepsValid | src/robot/src/robots/robot_branch.rs:284-288 | reset keeps the offsets the running sums of the members' dofs |
| Robots.NewState | src/robot/src/robots/serise_robot.rs:56-64 | a new state has one zero entry per link in every vector, the identity base and no control message |
| Robots.NewParams | src/robot/src/robots/serise_robot.rs:68-82 | new parameters have zero bounds and defaults of length `nlink`, an (nlink+1)×4 zero DH table and `nlink` default capsules |
| Robots.NewRobot | src/robot/src/robots/serise_robot.rs:40-49 | `new` keeps the name, has dof `nlink` and is well formed |
| Robots.FromFile | src/robot/src/robots/serise_robot.rs:50-52 | loading from a file always fails (`unimplemented!`) |
| Robots.Reset | src/robot/src/robots/serise_robot.rs:210-215 | reset sets the joint positions to the defaults, zeroes velocity, acceleration and jerk, and changes nothing else |
| Robots.ResetIdempotent | src/robot/src/robots/serise_robot.rs:210-215 | resetting twice is resetting once |
| Robots.ResetWellFormed | src/robot/src/robots/serise_robot.rs:210-215 | reset keeps a well-formed robot well formed |
| Robots.SetQ | src/robot/src/robots/serise_robot.rs:102-107 | `set_q` replaces the joint positions and leaves every other field alone |
| Robots.SetQDot | src/robot/src/robots/serise_robot.rs:102-107 | `set_q_dot` replaces the velocities and leaves every other field alone |
| Robots.SetQDdot | src/robot/src/robots/serise_robot.rs:102-107 | `set_q_ddot` replaces the accelerations and leaves every other field alone |
| Robots.SetQJerk | src/robot/src/robots/serise_robot.rs:102-107 | `set_q_jerk` replaces the jerks and leaves every other field alone |
| Robots.SetControl | src/robot/src/robots/panda.rs:27 | setting the control message replaces it and leaves every other field alone |
| Robots.SettersCommute | src/robot/src/robots/serise_robot.rs:102-107 | setters of different fields commute |
| Robots.MinDistance | src/robot/src/robots/serise_robot.rs:168-175 | the minimum exists iff there is at least one capsule distance (the final `unwrap` panics otherwise); it is one of the distances and no larger than any |
| Robots.PandaInvariants | src/robot/src/robots/panda.rs:16-74 | a new Panda has 7 joints, the given name and base, starts at its default joint angles with zero derivatives, every default lies within its lower and upper bound (lower < upper), it has one capsule more than links, and is well formed |
| Robots.PandaStartsReset | src/robot/src/robots/panda.rs:19-33 | a new Panda already sits at its default pose: resetting it changes nothing |
| Robots.NewGripper | src/robot/src/robots/franka_gripper.rs:8-14 | a new gripper has width 0 and is not homing |
| Robots.Grasp | src/robot/src/robots/franka_gripper.rs:23-25 | grasp stores the width as given and changes nothing else |
| Robots.Home | src/robot/src/robots/franka_gripper.rs:27-29 | home sets the homing flag and changes nothing else |
| Robots.GripperHistory | src/robot/src/robots/franka_gripper.rs:23-29 | after any sequence of grasps and homes the name is kept, homing is set iff it was set or some home happened, and without a grasp the width is unchanged |
| Robots.GripperLastGrasp | src/robot/src/robots/franka_gripper.rs:23-25 | the last grasp decides the width |
| Robots.FromConfig | src/robot/src/config.rs:16-27 | "panda" builds a Panda with the configured name and base, "franka_gripper" a new gripper, anything else fails with "Unknown robot type: " and the type |
| Messages.IsoToVec | src/message/src/utilities/to_vec.rs:3-14 | the flattened pose has six entries: the quaternion's vector part, then the translation |
| Messages.IsoToVecInverse | src/message/src/utilities/to_vec.rs:3-14 | the six entries and the scalar part together give the pose back |
| Messages.IsoToVecForgetsW | src/message/src/utilities/to_vec.rs:4 | the flattening drops the scalar part: poses differing only there flatten alike |
| Messages.PushConstraint | crates/message/src/constraint.rs:23-35 | push succeeds exactly on CartesianProduct, Intersection and Union, appending the constraint (and the index, for a product) and keeping the variant; any other variant fails with the panic message |
| Messages.PushKeepsProductAligned | crates/message/src/constraint.rs:25-28 | on a product whose indices and parts line up, push keeps them lined up |
| Messages.RealsOf | src/message/src/state.rs:9 | a JSON array reads as a list of floats iff every element is a number, element by element |
| Messages.VectorRoundTrip | src/message/src/node_message.rs:5-19 | a vector written in a layout (plain list, fixed-size, DVector triple) reads back unchanged in that layout |
| Messages.FlatIsNotDyn | src/message/src/state.rs:31-37 | a plain list never decodes where a DVector is expected |
| Messages.VectorsRoundTrip | src/message/src/node_message.rs:5-19 | a list of vectors reads back unchanged |
| Messages.Field | src/message/src/state.rs:4 | a struct field is read exactly when its key occurs once, and then it is the member stored under the key; a key that does not occur is "missing field" and one that occurs twice or more is "duplicate field" |
| Messages.PoseRoundTrip | src/message/src/state.rs:4 | a pose written as rotation and translation reads back unchanged |
| Messages.Variant | src/message/src/node_message.rs:5-19 | an enum value in object form is one member: its key is the variant, its value the payload |
| Messages.TupleFields | src/message/src/node_message.rs:12-16 | a tuple variant's payload is an array of exactly its arity |
| Messages.NodeMessageTag | src/message/src/node_message.rs:5-19 | every node message is tagged with one of the eleven variant names |
| Messages.TimedVectors | src/message/src/node_message.rs:12-18 | a period-carrying payload yields the period and exactly the expected number of vectors |
| Messages.NodeMessageContent | src/message/src/node_message.rs:9-18 | every non-unit node message is written as its tag holding its payload |
| Messages.NodeMessagePayloadRoundTrip | src/message/src/node_message.rs:9-18 | each variant's payload decodes under its own tag to the same message |
| Messages.NodeMessageRoundTrip | src/message/src/node_message.rs:5-19 | every node message written in a layout reads back unchanged |
| Messages.UnknownNodeMessageTag | src/message/src/node_message.rs:5-19 | a tag naming no variant is refused |
| Messages.RobotStateRoundTrip | src/message/src/state.rs:31-37 | every robot state written in a layout reads back unchanged |
| Messages.DecodeRobotStateItems | src/message/src/state.rs:31-37 | a list of robot states decodes iff every element does, element by element and in order |
| Messages.DecodeRobotStates | src/message/src/state.rs:31-37 | a decoded list of states comes from a JSON array of the same length |
| Messages.TaskStateRoundTrip | src/message/src/state.rs:40-45 | every task state reads back unchanged |
| Messages.DecodeControlCommand | crates/message/src/control_command.rs:4-26 | a decoded control command is one of the eight command variants and its vectors fit the layout |
| Messages.ControlCommandRoundTrip | crates/message/src/control_command.rs:4-26 | every control command reads back unchanged |
| Messages.ControlCommandWrongLength | crates/message/src/control_command.rs:16-26 | a fixed-size command whose vector has the wrong length is refused |
| Messages.TimedJointRoundTrip | crates/message/src/control_command.rs:28-32 | the timed joint struct reads back from both its map and its sequence form |
| Bullet.ApplyState | src/node/src/simulators/bullet.rs:162-178 | a received state overwrites exactly the joint positions, velocities and accelerations it carries; jerk, base, control message, name and parameters are untouched |
| Bullet.ApplyStateNarrow | src/simulator/src/simulators/bullet.rs:170-178 | the single-robot simulator writes Joint, Velocity and JointVel states and ignores the others |
| Bullet.ApplyStates | src/node/src/simulators/bullet.rs:160-179 | states are paired with robots by `zip`: robot k gets state k, robots without a state are untouched |
| Bullet.NewNode | src/node/src/simulators/bullet.rs:68-88 | a new node keeps its name, is not the end node and has no robots |
| Bullet.SetRobot | src/node/src/simulators/bullet.rs:100-104 | `set_robot` appends a serial robot and ignores any other robot kind |
| Bullet.SetRobotsKeepsSeries | src/node/src/simulators/bullet.rs:100-104 | over a sequence of handles, exactly the serial robots are kept, in call order |
| Bullet.Controls | src/node/src/simulators/bullet.rs:136-141 | the collected commands are the robots' control messages, one per robot, in order |
| Bullet.ParseStates | src/node/src/simulators/bullet.rs:153 | the request parses only as a JSON list of DVector-layout robot states |
| Bullet.NodeUpdate | src/node/src/simulators/bullet.rs:134-181 | an update succeeds iff the request parses (the `unwrap` panics otherwise), and then applies the states to the robots by `zip` |
| Bullet.NodeUpdateIgnoresEnd | src/node/src/simulators/bullet.rs:97-99 | the end flag set by `is_end` changes nothing in `update` |
| Bullet.NodeReplyDecodesTwice | src/node/src/simulators/bullet.rs:143-157 | when the number spelling reads back the commands' numbers, the reply is the command list serialised twice: one JSON read gives a string, a second gives the list of control messages, each decoding to its robot's message |
| Bullet.ParseState | src/simulator/src/simulators/bullet.rs:162 | the request parses only as one robot state in the expected layout |
| Bullet.SimUpdate | src/simulator/src/simulators/bullet.rs:132-180 | with an empty queue nothing happens and there is no reply; otherwise the update succeeds iff the request parses, pops one command, replies, and applies the state |
| Bullet.CommandReadsBack | src/simulator/src/simulators/bullet.rs:165 | a command serialised on its own, with its numbers spelt soundly, reads back as the same command |
| Bullet.SimReplyIsHead | src/simulator/src/simulators/bullet.rs:148-166 | the reply decodes to exactly the command popped from the head of the queue, given a sound spelling of that command's numbers |
| Bullet.SubscribePostOffice | src/simulator/src/simulators/bullet.rs:104-110 | subscribing to the post office always fails (`unimplemented!`) |
| Bullet.FixedUpdate | crates/simulator/src/simulators/bullet.rs:163-211 | the fixed-size simulator behaves like the dynamic one with states and commands of exactly N entries |
| Bullet.FixedReplyIsHead | crates/simulator/src/simulators/bullet.rs:179-197 | whenever the update succeeds, the reply decodes, as a fixed-size control command, to the command popped from the queue, given a sound spelling of its numbers |
| Exchange.FlatStateRefused | scripts/simulators/robot_pybullet/robot.py:100-107 | the script's `{"JointVel": [positions, velocities]}` with plain lists is not a pair of DVectors |
| Exchange.FlatStatesPanic | src/node/src/simulators/bullet.rs:153 | as written, the states the script sends for at least one robot, spelt soundly, make the node's parse fail, so its `unwrap` panics |
| Exchange.DynStatesDecode | src/node/src/simulators/bullet.rs:153 | states sent in the DVector layout, their numbers spelt soundly, parse to one JointVel state per robot, holding that robot's joint positions and velocities |
| Exchange.StatesDecode | scripts/simulators/robot_pybullet/robot.py:100-107 | each state the corrected script builds decodes to the JointVel state of that robot's joints |
| Exchange.ItemsDecode | src/node/src/simulators/bullet.rs:153 | a list whose every element decodes decodes to the list of the results |
| Exchange.DynStatesApply | src/node/src/simulators/bullet.rs:153-179 | with the corrected states, spelt soundly, the node's update succeeds and Rust robot k receives the positions and velocities the engine reports for Python robot k; accelerations and control messages are kept, robots without a state are untouched |
| Exchange.ReadingsApplied | src/node/src/simulators/bullet.rs:153-179 | one JointVel reading per Python robot, applied by `zip`, sets Rust robot k's positions and velocities to Python robot k's and leaves its accelerations, its control message and the surplus robots as they were |
| Exchange.ReplyDecodedTwice | scripts/simulators/sim_pybullet.py:91-95 | decoding the node's reply twice yields exactly the list of every Rust robot's control message, in order, when the commands' numbers are spelt soundly |
| Exchange.ReplyDecodedOnce | scripts/simulators/sim_pybullet.py:91-95 | decoding the reply once yields a string; iterating it gives characters, and executing a character changes nothing (commands' numbers spelt soundly) |
| Exchange.CommandsReachRobots | scripts/simulators/robot_pybullet/robot.py:130-143 | every command drawn from the reply is carried out as intended: the robot is driven with the vector of the Rust robot's control message, or left alone when that message does not act |
| PyRobot.Refresh | scripts/simulators/robot_pybullet/robot.py:20-24 | `update_state` makes the cached position and velocity agree with the engine and keeps the joint's handle |
| PyRobot.NewJoint | scripts/simulators/robot_pybullet/robot.py:7-18 | a new joint handle starts with the engine's current state |
| PyRobot.JointReset | scripts/simulators/robot_pybullet/robot.py:26-28 | `reset_joint_state` puts this joint (and no other) at the position with zero velocity, and the cache then agrees with the engine |
| PyRobot.JointCommand | scripts/simulators/robot_pybullet/robot.py:35-80 | every set command logs one motor command; position and velocity control re-read the cache, torque control does not |
| PyRobot.JointSet | scripts/simulators/robot_pybullet/robot.py:35-80 | a motor target is accepted iff it is a number (or bool); then it is exactly that command |
| PyRobot.ApplyZip | scripts/simulators/robot_pybullet/robot.py:112-128 | the `zip` setters succeed iff the first min(joints, values) values are numbers, keep every joint's handle, leave the joints past the shorter list untouched and the bodies, states and step count unchanged; a non-number raises TypeError |
| PyRobot.ApplyZipMotors | scripts/simulators/robot_pybullet/robot.py:112-128 | the motor commands queued are the engine's own followed by one per commanded joint, joint k with value k, in order |
| PyRobot.NewRobot | scripts/simulators/robot_pybullet/robot.py:86-91 | a missing base pose becomes [0, 0, 0]; a new robot has no joints and no default |
| PyRobot.ResetZip | scripts/simulators/robot_pybullet/robot.py:93-95 | reset puts joint k at default k with zero velocity for the joints `zip` reaches and touches nothing else |
| PyRobot.ResetZipEngine | scripts/simulators/robot_pybullet/robot.py:93-95 | after the reset the engine reports those positions at rest for the reached joints and the old state for every other joint |
| PyRobot.Reset | scripts/simulators/robot_pybullet/robot.py:93-95 | `Robot.reset` changes only the joint caches, and drives the engine as the zipped reset |
| PyRobot.ReadJoints | scripts/simulators/robot_pybullet/robot.py:101-106 | reading the joints gives one position and one velocity per joint, each the engine's |
| PyRobot.GetState | scripts/simulators/robot_pybullet/robot.py:100-107 | the state is a one-member object keyed "JointVel" holding the positions and the velocities of every joint |
| PyRobot.SetJoints | scripts/simulators/robot_pybullet/robot.py:112-128 | the list setters raise TypeError on a non-iterable, change only the joint caches and only log motor commands |
| PyRobot.SetJointsNumbers | scripts/simulators/robot_pybullet/robot.py:112-128 | a list of numbers is always accepted, and joint k is commanded with value k for every k both have |
| PyRobot.Dispatch | scripts/simulators/robot_pybullet/robot.py:136-143 | one branch of `execute_command` only logs motor commands |
| PyRobot.ExecuteCommand | scripts/simulators/robot_pybullet/robot.py:130-143 | `"Joint" in cmd` on a non-container raises TypeError; a dict with a Joint key drives positions from `cmd["Joint"][0]`; a dict with none of the four keys does nothing |
| PyRobot.ExecuteCommandIntended | scripts/simulators/robot_pybullet/robot.py:130-143 | the corrected command reading raises TypeError on a non-container and only logs motor commands |
| PyRobot.TagOfEncoded | src/message/src/node_message.rs:5-19 | a non-unit node message reaches Python as a one-member dict keyed by its variant name |
| PyRobot.ExecuteIgnores | scripts/simulators/robot_pybullet/robot.py:136-143 | a node message other than the four acting ones leaves engine and robot unchanged |
| PyRobot.ExecutePlain | scripts/simulators/robot_pybullet/robot.py:136-141 | Joint and Tau commands read the DVector's data and drive the joints with it |
| PyRobot.ExecutePeriodAsWritten | scripts/simulators/robot_pybullet/robot.py:138-143 | as written, JointWithPeriod and TauWithPeriod pick `[1]`, the whole DVector triple, and a robot with a joint raises TypeError |
| PyRobot.ExecuteIntended | scripts/simulators/robot_pybullet/robot.py:136-143 | the corrected reading drives the joints with the carried vector for all four acting messages, and always succeeds |
| PyRobot.ExecuteCharacter | scripts/simulators/sim_pybullet.py:93-95 | executing a one-character string does nothing |
| PyRobot.DefaultsAgree | scripts/simulators/robot_pybullet/franka_panda.py:5-11 | the Python Panda default joint angles equal the Rust ones |
| PyRobot.PandaJoints | scripts/simulators/robot_pybullet/franka_panda.py:24-25 | the Panda gets one joint handle per index 0..6 on its body |
| PyRobot.NewPanda | scripts/simulators/robot_pybullet/franka_panda.py:17-26 | a Panda loads one fixed-base body with the raw base pose, has seven joints and the default configuration, and logs no motor command |
| PyRobot.PandaStartsAtDefault | scripts/simulators/robot_pybullet/franka_panda.py:26 | after construction the engine holds every Panda joint at its default angle and at rest |
| PyRobot.LoadRobot | scripts/simulators/robot_pybullet/load.py:4-9 | only "panda" loads a robot; anything else raises ValueError "Unknown robot type: '…'." |
| PySim.ParseToken | scripts/simulators/sim_pybullet.py:44-47 | a token unpacks iff it holds exactly one underscore; the type is the part before it and the rebuilt name is the token itself; otherwise ValueError |
| PySim.TypeIdTokens | scripts/simulators/sim_pybullet.py:43-49 | the kept tokens are exactly the `type_id`-shaped ones |
| PySim.ParseTextInput | scripts/simulators/sim_pybullet.py:41-50 | every `type_id` token gives one (type, name) pair in order, every other token one complaint line, and nothing else is produced |
| PySim.AllTypeIdsKept | scripts/simulators/sim_pybullet.py:41-50 | when every token has the `type_id` shape, all are kept and nothing is printed |
| PySim.LoadsPy | scripts/simulators/sim_pybullet.py:33 | `json.load` succeeds iff the text parses, and raises JSONDecodeError otherwise |
| PySim.FileEntries | scripts/simulators/sim_pybullet.py:34-37 | the comprehension succeeds iff every entry does, and gives one triple per entry in order |
| PySim.LoadRobotsFromFile | scripts/simulators/sim_pybullet.py:31-37 | unparseable text raises JSONDecodeError; parsed text gives the robots of its `robots` member |
| PySim.RobotsOf | scripts/simulators/sim_pybullet.py:36 | `data.get` on a non-dict raises AttributeError, a missing `robots` key gives no robots, every result is a triple |
| PySim.ConfigEntryOf | scripts/simulators/sim_pybullet.py:35 | a robot configuration written as JSON gives back its type, name and translation |
| PySim.LoadConfigFile | scripts/simulators/sim_pybullet.py:31-37 | a configuration file written from a list of robot configurations, its numbers spelt soundly, loads back one (type, name, translation) triple per robot, in order |
| PySim.ConfigFileRobots | scripts/simulators/sim_pybullet.py:34-37 | a `{"robots": [...]}` object yields one triple per configuration |
| PySim.Unpack3 | scripts/simulators/sim_pybullet.py:78 | the three-way unpack succeeds iff the tuple has three items, and raises ValueError otherwise |
| PySim.LoadAll | scripts/simulators/sim_pybullet.py:77-79 | loading succeeds iff every entry is a triple whose type is "panda"; then one seven-joint robot and one body per entry; otherwise ValueError |
| PySim.Printing | scripts/simulators/sim_pybullet.py:49 | the complaint lines are printed in order |
| PySim.Pairs | scripts/simulators/sim_pybullet.py:47 | as written, the text path builds (type, name) pairs |
| PySim.Triples | scripts/simulators/sim_pybullet.py:47 | the corrected text path builds (type, name, None) triples |
| PySim.ReadFile | scripts/simulators/sim_pybullet.py:32 | opening a missing file raises FileNotFoundError |
| PySim.RobotConfig | scripts/simulators/sim_pybullet.py:68-74 | with neither argument there is no source; text input is parsed into pairs (as written) or triples (corrected), one per kept token, with the complaint lines |
| PySim.TextFirst | scripts/simulators/sim_pybullet.py:68-71 | when text input is given the file argument is never read |
| PySim.States | scripts/simulators/sim_pybullet.py:85-87 | every robot's `get_state`, in load order |
| PySim.ExecuteZip | scripts/simulators/sim_pybullet.py:93-95 | with no robots or no commands nothing happens; robots without a command are untouched; only motor commands are logged |
| PySim.ExecuteZipSurplus | scripts/simulators/sim_pybullet.py:93 | commands beyond the last robot make no difference (`zip` truncates) |
| PySim.ReceiveAndLoad | scripts/simulators/utilities/zmq2rust.py:23-28 | the corrected receive succeeds iff the reply parses to a string that itself parses, and yields the inner value |
| PySim.Respond | scripts/simulators/sim_pybullet.py:91-98 | a completed reply keeps one robot per robot and steps the simulation once |
| PySim.Cycle | scripts/simulators/sim_pybullet.py:85-98 | a completed cycle keeps the robots and steps the simulation once |
| PySim.CycleSendsStates | scripts/simulators/sim_pybullet.py:85-88 | when the numbers are spelt soundly, the message sent parses to one JointVel state per robot holding that robot's engine positions and velocities |
| PySim.Loop | scripts/simulators/sim_pybullet.py:82-103 | the loop always produces some event |
| PySim.LoopShape | scripts/simulators/sim_pybullet.py:82-103 | every run ends with the disconnect (`finally`); an interrupted run sent and stepped once per reply; a raised run sent one more message than it stepped; the engine stepped as often as the run says |
| PySim.LoopShapeRaise | scripts/simulators/sim_pybullet.py:82-103 | a cycle that raises has sent its states, then disconnects and re-raises |
| PySim.LoopShapeStep | scripts/simulators/sim_pybullet.py:83-99 | a completed cycle puts one send and one step before the rest of the run |
| PySim.MainAsWritten | scripts/simulators/sim_pybullet.py:53-103 | with neither `-t` nor `-f` the script prints the usage line and returns after loading the plane |
| PySim.Main | scripts/simulators/sim_pybullet.py:53-103 | the corrected script behaves alike when no source is given |
| PySim.TextPathAsWritten | scripts/simulators/sim_pybullet.py:78 | as written, text input with a valid token raises ValueError at the three-way unpack, before the `try`, so the simulator is never disconnected |
| PySim.FilePathAsWritten | scripts/simulators/sim_pybullet.py:91 | as written, the file path sends one state message and then raises AttributeError on `receive_command`, disconnecting without a single step |
| PySim.PandaTokens | scripts/simulators/sim_pybullet.py:41-50 | `panda_<id>` tokens parse to ("panda", token) pairs with no complaint |
| PySim.TextPathCorrected | scripts/simulators/sim_pybullet.py:53-103 | with the corrections, text input naming Pandas reaches the loop: the run ends disconnected, and without an exception it steps once per reply |
| PySim.MainEnters | scripts/simulators/sim_pybullet.py:76-103 | once the robots load, the run is the parser's lines followed by the loop |
| PySim.PrefixBeforeSeparator | scripts/simulators/sim_pybullet.py:45 | a separator-free prefix followed by the separator is exactly the part before the first separator |
| PyLegacy.ImportFrom | crates/simulator/scripts/main.py:2 | `from robot import …` succeeds iff every imported name is defined, and raises ImportError otherwise |
| PyLegacy.NewLegacyPanda | crates/simulator/scripts/robot.py:73-81 | the Panda loads one fixed-base body with the given position, takes the next body id and has seven joints on it |
| PyLegacy.LegacyPandaAtZero | crates/simulator/scripts/robot.py:83-85 | after construction every joint rests at position 0 |
| PyLegacy.GetJointsState | crates/simulator/scripts/robot.py:99-106 | positions and velocities come back in joint order, each the engine's |
| PyLegacy.DriveJoints | crates/simulator/scripts/robot.py:111-113 | driving by index succeeds iff every needed `velocities[i]` exists and is a number, and only logs motor commands |
| PyLegacy.SetJointsVelocity | crates/simulator/scripts/robot.py:111-113 | `set_joints_velocity` changes only the joint caches and only logs motor commands |
| PyLegacy.DriveIsZip | crates/simulator/scripts/robot.py:111-113 | with enough values, driving by index is the zipped setter on the matching slice |
| PyLegacy.ExtraVelocitiesIgnored | crates/simulator/scripts/robot.py:111-113 | values beyond the seventh are ignored |
| PyLegacy.FewVelocitiesRaise | crates/simulator/scripts/robot.py:113 | fewer than seven values raise IndexError |
| PyLegacy.FewValuesRaise | crates/simulator/scripts/robot.py:113 | driving by index past the end of the list raises IndexError |
| PyLegacy.Trunc | crates/simulator/scripts/main.py:31 | Python's `int` on a float truncates toward zero |
| PyLegacy.StepCount | crates/simulator/scripts/main.py:31 | a number or bool period always gives a step count, and only a number, bool or string can; a failure raises ValueError or TypeError; `True` steps 240 times |
| PyLegacy.DigitStringSteps | crates/simulator/scripts/main.py:31 | a period written as a string of digits steps as often as its 240 copies, read as one integer, say |
| PyLegacy.ZeroStringNoSteps | crates/simulator/scripts/main.py:31 | the period "0" is accepted and steps no time |
| PyLegacy.StrayStringRaises | crates/simulator/scripts/main.py:31 | an empty string, or one holding a character that is no digit, underscore, sign or blank, raises ValueError |
| PyLegacy.StepsFromPeriod | crates/simulator/scripts/main.py:31 | the count is zero iff the period is below 1/240 s, and for a non-negative period it is 240·period rounded down |
| PyLegacy.TruncatesNotRounds | crates/simulator/scripts/main.py:31 | a period of 1.5/240 s steps once, not twice |
| PyLegacy.StepN | crates/simulator/scripts/main.py:31-32 | the stepping loop advances the simulation exactly n times |
| PyLegacy.Unpack2 | crates/simulator/scripts/main.py:27 | `period, velocities = …` succeeds iff the reply iterates to exactly two items |
| PyLegacy.Decode | crates/simulator/scripts/zmq2rust.py:24-29 | `receive_command` parses the reply, then the unpack applies |
| PyLegacy.Act | crates/simulator/scripts/main.py:30-32 | acting steps the simulation `int(period*240)` times and changes no joint state directly |
| PyLegacy.Respond | crates/simulator/scripts/main.py:27-32 | a reply that does not decode fails; one that does drives the joints and steps |
| PyLegacy.DriveSeven | crates/simulator/scripts/robot.py:61-69 | seven numbers drive the seven joints with velocity control and the default force 500 |
| PyLegacy.RespondWellFormed | crates/simulator/scripts/main.py:27-32 | a well-formed `[period, velocities]` reply drives the seven joints and steps `int(period*240)` times |
| PyLegacy.Steps | crates/simulator/scripts/main.py:31-32 | n steps are n step events |
| PyLegacy.Loop | crates/simulator/scripts/main.py:21-32 | with no reply the loop is interrupted before anything happens |
| PyLegacy.CountConcat | crates/simulator/scripts/main.py:21-32 | event counts add up over concatenated runs |
| PyLegacy.LoopAccounts | crates/simulator/scripts/main.py:21-32 | the engine steps as often as the run records, at most one message is sent per reply (exactly one when interrupted), and bodies and joint states never change in the loop |
| PyLegacy.LoopAccountsStep | crates/simulator/scripts/main.py:25-32 | one completed pass keeps that accounting |
| PyLegacy.Main | crates/simulator/scripts/main.py:1-32 | the script gets past its imports iff robot.py defines every imported name |
| PyLegacy.ImportFails | crates/simulator/scripts/main.py:2 | as written, the script raises ImportError on its import line: robot.py defines `pubullet_init`, not `pybullet_init` |
| PyLegacy.MainRuns | crates/simulator/scripts/main.py:10-32 | with the name spelt consistently the script loads the plane and one Panda at [0.5, 0, 0], then runs the loop with the same accounting |
| PyLegacy.CommandNotPair | crates/simulator/scripts/main.py:27 | no node message, in any layout, unpacks into two items |
| PyLegacy.TaggedReplyRefused | crates/simulator/src/simulators/bullet.rs:196 | the tagged command the fixed-size simulator replies with, its numbers spelt soundly, cannot be unpacked by this script |
| Obstacles.Find | src/node/src/sensor_releaser/obstacle_releaser.rs:34 | `iter().find` gives the first queue whose id matches, or none when no queue has the id |
| Obstacles.Batch | src/node/src/sensor_releaser/obstacle_releaser.rs:43-45 | a transform yields `interp` poses, pose i interpolated at i/interp from start to end |
| Obstacles.Enqueue | src/node/src/sensor_releaser/obstacle_releaser.rs:32-45 | the batch is appended to the id's existing queue, or a new queue for the id is added at the end |
| Obstacles.EnqueueKeepsIds | src/node/src/sensor_releaser/obstacle_releaser.rs:32-41 | enqueuing keeps one queue per id and adds the id at the end only when it was new |
| Obstacles.EnqueueTwice | src/node/src/sensor_releaser/obstacle_releaser.rs:32-45 | two transforms for the same id queue both batches, in order |
| Obstacles.PendingAfterEnqueue | src/node/src/sensor_releaser/obstacle_releaser.rs:43-45 | an id's pending poses grow by exactly the batch |
| Obstacles.FindLast | src/node/src/sensor_releaser/obstacle_releaser.rs:38-39 | a queue pushed for an id not yet present is the one found for it |
| Obstacles.Release | src/node/src/sensor_releaser/obstacle_releaser.rs:51-55 | a release pops the head of every non-empty queue, in table order, and keeps the table's shape |
| Obstacles.NonEmpty | src/node/src/sensor_releaser/obstacle_releaser.rs:52 | the queues that release are exactly those with a pending pose |
| Obstacles.ReleaseDrains | src/node/src/sensor_releaser/obstacle_releaser.rs:51-55 | a release takes exactly one pose from each non-empty queue: the backlog shrinks by the number released |
| Obstacles.Update | src/node/src/sensor_releaser/obstacle_releaser.rs:27-68 | an update consumes one input; without a sensor it only enqueues; with one it enqueues, then releases one pose per queue to `update_pose` |
| Obstacles.Enqueued | src/node/src/sensor_releaser/obstacle_releaser.rs:31 | an input that is not a transform leaves the table as it was |
| Obstacles.UpdateKeepsTable | src/node/src/sensor_releaser/obstacle_releaser.rs:27-56 | an update keeps one queue per id, never drops or reorders an id, and only appends new ones |
| Obstacles.NoSensorNoRelease | src/node/src/sensor_releaser/obstacle_releaser.rs:43-49 | with no sensor the whole batch stays queued |
| Obstacles.FromName | crates/sensor/src/sensors/obstacle_releaser.rs:10-15 | a new releaser has the name and no obstacles |
| Obstacles.GetCollision | src/sensor/src/sensors/obstacle_releaser.rs:22-24 | the collision objects are the obstacles without their labels, in order |
| Obstacles.SetParams | src/sensor/src/sensors/obstacle_releaser.rs:26-28 | setting parameters succeeds iff they decode (the `unwrap` panics otherwise) and keeps the name |
| Obstacles.SetParamsReplaces | src/sensor/src/sensors/obstacle_releaser.rs:26-28 | the decoded list replaces the old obstacles whatever they were |
| Obstacles.CreateSensor | crates/sensor/src/config.rs:5-12 | only "obstacle_releaser" creates a sensor, named as given; anything else fails with "Sensor type not found," and the type |
| TaskDag.AddEdges | src/manager/src/task_manager.rs:66-69 | every listed predecessor, known or not, gets an edge to the new task and nothing else changes |
| TaskDag.AddTask | src/manager/src/task_manager.rs:57-75 | the task is stored, its count grows by the length of its rely list (duplicates included), each predecessor gains it as successor, it opens iff its count is zero, and no other task's count or openness changes |
| TaskDag.WithEntry | src/manager/src/task_manager.rs:62 | `or_default` gives the id an entry without changing any successor set |
| TaskDag.AddKeepsOpen | src/manager/src/task_manager.rs:57-75 | adding a task keeps every task whose count is zero open |
| TaskDag.FromTasks | src/manager/src/task_manager.rs:41-54 | the manager built from a task list knows exactly the listed ids and every task whose count is zero is open |
| TaskDag.AddAll | src/manager/src/task_manager.rs:50-52 | adding tasks in turn knows the old and the new ids and keeps open-when-free |
| TaskDag.OpenTasks | src/manager/src/task_manager.rs:78-83 | the open tasks listed are exactly the stored tasks whose id is open |
| TaskDag.Collect | src/manager/src/task_manager.rs:80-82 | `filter_map` keeps exactly the ids that have a stored task |
| TaskDag.RemoveTask | src/manager/src/task_manager.rs:86-100 | removal fails with the unwrap panic when a successor has no count, and with the subtraction overflow when a count is already zero; otherwise the task and its tables go, each successor's count drops by one and a successor reaching zero opens |
| TaskDag.RemoveUnknown | src/manager/src/task_manager.rs:86-100 | removing an id no table knows changes nothing |
| TaskDag.SuccessorFirstPanics | src/manager/src/task_manager.rs:89 | removing a predecessor after its successor was removed panics on the unwrap |
| TaskDag.AddOpensIffNoRely | src/manager/src/task_manager.rs:72-74 | a new task opens at once exactly when it relies on nothing |
| TaskDag.PredsAfterAdd | src/manager/src/task_manager.rs:66-69 | after adding a fresh task its predecessors are the distinct ids of its rely list, and no other task's predecessors change |
| TaskDag.DuplicateRelyOvercounts | src/manager/src/task_manager.rs:66-69 | a rely list with a repeated id counts more predecessors than the edge set holds |
| TaskDag.DuplicateRelyNeverOpens | src/manager/src/task_manager.rs:66-69 | task k relying on [p, p]: after p is removed, k still has count 1 and no predecessor, and no later removal opens it |
| TaskDag.TwoAdded | src/manager/src/task_manager.rs:57-75 | adding p, then k relying on [p, p], counts 2 for k, opens p only, and gives p the single successor k |
| TaskDag.AddTaskDistinct | src/manager/src/task_manager.rs:57-75 | counting each predecessor once stores the same task and draws the same edges, counts the distinct predecessors, and opens the task iff that count is zero |
| TaskDag.OpenAfterDistinct | src/manager/src/task_manager.rs:72-74 | the corrected add keeps every task whose count is zero open |
| TaskDag.ConsistentAfterDistinct | src/manager/src/task_manager.rs:66-69 | adding a fresh task with the corrected count keeps every count equal to the number of distinct predecessors |
| TaskDag.RemoveKeepsConsistent | src/manager/src/task_manager.rs:86-100 | removal keeps counts equal to distinct predecessors |
| TaskDag.LastPredecessorOpens | src/manager/src/task_manager.rs:91-93 | when counts are consistent, removing a task's only predecessor opens it |
| TaskDag.DistinctRelyOpens | src/manager/src/task_manager.rs:86-100 | with the corrected add, a task whose rely list names only p (however often) opens once p is removed |
| NodeLifecycle.New | crates/task_manager/src/state_collector.rs:14-22 | a new collector counts no nodes in any phase |
| NodeLifecycle.AddNode | crates/task_manager/src/state_collector.rs:37-40 | `add_node` adds one node, waiting, and keeps the phase counts summing to the node count |
| NodeLifecycle.Apply | crates/task_manager/src/state_collector.rs:42-57 | a move fails with the subtraction overflow exactly when its source phase is empty; otherwise one node moves from the source phase to the next, the other counts and the node count stay, and the sum stays balanced |
| NodeLifecycle.Refresh | crates/task_manager/src/state_collector.rs:59-64 | `refresh` puts every node back to waiting, and changes nothing on a balanced all-waiting state |
| NodeLifecycle.RunKeepsBalance | crates/task_manager/src/state_collector.rs:42-57 | any run of moves that does not underflow keeps the counts summing to the node count |
| NodeLifecycle.CountersBounded | crates/task_manager/src/state_collector.rs:5-11 | in a balanced state no phase count exceeds the node count |
| NodeLifecycle.FullCycle | crates/task_manager/src/state_collector.rs:42-57 | start, update, finish, wait brings the counts back where they were |
| NodeLifecycle.AllWaitingOnlyStarts | crates/task_manager/src/state_collector.rs:42-57 | when every node is waiting, every move but `start` underflows |
| TargetNodes.New | crates/task_manager/src/task_manage.rs:17-25 | a new manager has an empty task and no planner queues |
| TargetNodes.AddTargetNode | crates/task_manager/src/task_manage.rs:40-45 | a planner queue is appended, even under a name already listed, and nothing else changes |
| TargetNodes.SetTask | crates/task_manager/src/task_manage.rs:36-38 | `set_task` replaces the task and keeps the planners |
| TargetNodes.QueueWithName | crates/task_manager/src/task_manage.rs:27-34 | the lookup finds nothing iff no planner has the name, and otherwise the queue of the first planner with it |
| TargetNodes.First | crates/task_manager/src/task_manage.rs:28-33 | the loop returns the queue of the first matching planner |
| TargetNodes.FirstAtUnique | crates/task_manager/src/task_manage.rs:28-33 | only one position can be the first match |
| TargetNodes.DuplicateNameShadowed | crates/task_manager/src/task_manage.rs:27-45 | a name added again is shadowed: lookups keep finding the first queue |
| TargetNodes.AddThenFind | crates/task_manager/src/task_manage.rs:27-45 | a new name is found with its queue, and other names' lookups are unchanged |
| ControlLaw.DotAdd | src/controller/src/controllers/pid.rs:136-138 | a row's dot product with a sum of vectors is the sum of its dot products |
| ControlLaw.MatVecAdd | src/controller/src/controllers/pid.rs:136-138 | a matrix maps a sum of vectors to the sum of their images, so each gain term of the control law is linear |
| ControlLaw.DotZero | src/controller/src/controllers/pid.rs:136-138 | a dot product with the zero vector is zero |
| ControlLaw.MatVecZero | src/controller/src/controllers/pid.rs:136-138 | any matrix sends the zero vector to the zero vector |
| ControlLaw.PidZero | src/controller/src/controllers/pid.rs:79-87 | the PID memory starts as four zero vectors of the robot's dof |
| ControlLaw.PidStep | src/controller/src/controllers/pid.rs:130-138 | the step succeeds iff the shapes agree and the period is non-zero; the new error is track minus q, the integral grows by error times period, the derivative is the error change over the period, and the output is kp e + ki integral + kd derivative |
| ControlLaw.PidSteady | src/controller/src/controllers/pid.rs:130-138 | a second step at the same q keeps the error, zeroes the derivative and adds the error times the period to the integral again |
| ControlLaw.PidAtTrack | src/controller/src/controllers/pid.rs:130-138 | from zero memory at the track, the PID output is zero |
| ControlLaw.ReferenceZero | src/controller/src/controllers/impedence.rs:84-91 | the impedance reference starts as three zero vectors |
| ControlLaw.TakeReference | src/controller/src/controllers/impedence.rs:141-164 | a `Joint` track sets the reference position, `JointVel` position and velocity, `JointVelAcc` all three; any other message is refused |
| ControlLaw.ImpedanceOutput | src/controller/src/controllers/impedence.rs:168-170 | the output exists iff the shapes agree, and each entry is k, b and m applied to the reference minus the measured position, velocity and acceleration |
| ControlLaw.ImpedanceAtReference | src/controller/src/controllers/impedence.rs:168-170 | a robot exactly on its reference gets a zero impedance output |
| Controllers.PidFromParams | src/controller/src/controllers/pid.rs:74-93 | `from_params` keeps the gains and starts from zero memory of the robot's dof |
| Controllers.PidControllerUpdate | src/controller/src/controllers/pid.rs:117-150 | anything but a `Joint` track at the head is popped with nothing else changed; a `Joint` track runs the PID step and pushes `JointWithPeriod(period, output)` onto the command queue |
| Controllers.PidControllerMatchesNode | src/controller/src/controllers/pid.rs:117-150 | the controller thread and the PID node compute the same memory and the same output from the same track |
| Controllers.ImpedanceFromParams | src/controller/src/controllers/impedence.rs:79-96 | `from_params` keeps the gains and starts from a zero reference |
| Controllers.ImpedanceControllerUpdate | src/controller/src/controllers/impedence.rs:132-181 | a track the reference cannot take is popped and ignored; otherwise the reference is updated and `TauWithPeriod(period, output)` is pushed, failing only on a shape mismatch |
| Controllers.ImpedanceControllerMatchesNode | src/controller/src/controllers/impedence.rs:132-181 | the controller thread and the impedance node agree on the new reference and the output |
| Controllers.InterpPlannerUpdate | src/planner/src/planners/interp.rs:95-122 | a missing or non-joint target is dropped; with an interpolation function other than "lerp" the planner panics; otherwise the lerp segment from q to the target is appended to the track queue in order |
| Controllers.InterpPlannerAppends | src/planner/src/planners/interp.rs:102-121 | a joint target consumes exactly that target, keeps the earlier tracks, appends `ninter` points starting at q, and never reaches a distinct target |
| Controllers.SeriesJoints | crates/planner/src/planners/linear_series.rs:157-160 | each interpolated point becomes one `Joint` track, in order |
| Controllers.LinearSeriesUpdate | crates/planner/src/planners/linear_series.rs:125-161 | an empty queue changes nothing, a `Pose` target panics as unimplemented, and a joint target appends the interpolation from q to it |
| Controllers.LinearSeriesPushes | crates/planner/src/planners/linear_series.rs:125-161 | a joint target is consumed, earlier tracks are kept, `interpolation` points are appended from q, and the target itself is never among them unless it equals q |
| Interpolation.Point | crates/planner/src/planners/linear_series.rs:182-184 | an interpolated point has as many joints as the start |
| Interpolation.PointZero | crates/planner/src/planners/linear_series.rs:180-185 | fraction zero is the start itself |
| Interpolation.PointShort | crates/planner/src/planners/linear_series.rs:180-185 | below fraction one, a point equals the end only when start and end coincide |
| Interpolation.Segment | crates/planner/src/planners/linear_series.rs:174-188 | `interpolation` points for i = 0 .. n-1, none for a non-positive count, point i at fraction i/n |
| Interpolation.SegmentEnds | crates/planner/src/planners/linear_series.rs:174-188 | a segment opens at the start and never reaches a distinct end |
| Interpolation.Interior | crates/planner/src/utilities/interpolation.rs:4-15 | the older variant emits n-1 points, for i = 1 .. n-1 |
| Interpolation.InteriorIsSegmentTail | crates/planner/src/utilities/interpolation.rs:9-13 | the older variant is the newer one without its first point |
| Interpolation.Lerp | src/planner/src/utilities/interp_fn.rs:4-18 | `lerp` emits `ninterp` points per target |
| Interpolation.LerpAt | src/planner/src/utilities/interp_fn.rs:10-16 | point i of segment k sits at fraction i/n between the previous target (the start for k = 0) and target k |
| Interpolation.LerpStep | src/planner/src/utilities/interp_fn.rs:10-16 | from the second segment on, the track is the track that starts at the first target |
| Interpolation.LerpHead | src/planner/src/utilities/interp_fn.rs:12-14 | the first segment runs from the start towards the first target |
| Interpolation.LerpShift | src/planner/src/utilities/interp_fn.rs:15 | after the first segment the start moves to the first target |
| Interpolation.LerpEdges | src/node/src/utilities/interp_fn.rs:8-23 | the track is empty iff there are no targets or `ninterp` is zero, and otherwise opens at the start |
| Registries.SplitAtColon | src/node/src/create.rs:13 | the inverse of the `"{type}:{robot}"` naming: the part before the first ':' holds no ':' and is no longer than the name |
| Registries.QualifiedSplits | src/node/src/create.rs:13 | a name built from a type without ':' splits back into that type and the robot name |
| Registries.NodeTypeName | src/node/src/create.rs:15-24 | each node kind's registered type string, none containing ':' |
| Registries.ParseNodeType | src/node/src/create.rs:14-25 | exactly the eight registered strings are recognised, case-sensitively, each as the kind it names |
| Registries.NodeTypeRoundTrip | src/node/src/create.rs:14-25 | the type names are distinct, there are eight of them, and each parses back to its kind |
| Registries.CreateNode | src/node/src/create.rs:8-27 | `create_node` succeeds iff the type is registered, names the node `type:robot` and passes the parameters through; any other type panics with "Unknown node type: " and the type |
| Registries.CreatedNodeNameSplits | src/node/src/create.rs:13-24 | a created node's name splits back into its type and robot |
| Registries.CreatePlanner | src/planner/src/config.rs:7-19 | `create_planner` accepts exactly "interp" and "cfs", names the planner `type:robot`, passes robot and parameters through, and otherwise panics with "Unknown planner type: " and the type |
| Registries.CreateController | src/controller/src/config.rs:7-17 | `create_controller` accepts only "pid", names the controller with the bare robot name, and otherwise panics with "Unknown controller type: " and the type |
| Registries.ControllerNameUnprefixed | src/controller/src/config.rs:13-14 | a PID controller and a PID node of the same robot get different names, and the controller's name splits into no robot part |
| Registries.NoColonSplit | src/controller/src/config.rs:14 | a name without ':' splits into itself and nothing |
| Registries.DecodeI32 | crates/planner/src/planners/linear.rs:5-9 | a JSON value reads as an `i32` iff it is a whole number within the 32-bit signed range, and reads as that number |
| Registries.DecodeLinearParams | crates/planner/src/planners/linear.rs:5-9 | `LinearParams` reads from an object with exactly one `interpolation` member holding an `i32`, or from a one-element array of one, and from nothing else |
| Registries.LinearParamsRoundTrip | crates/planner/src/planners/linear.rs:5-9 | parameters written as JSON read back as themselves |
| Registries.InitPlanner | crates/planner/src/config.rs:11-22 | no configuration gives no planner; "linear" with readable parameters gives an uninitialised linear planner holding them, unreadable ones "Failed to parse Linear parameters"; any other type "unknow planner" |
| Registries.LinearGetParams | crates/planner/src/planners/linear.rs:33-35 | `get_params` returns the interpolation count alone, as a float |
| Registries.InitPlannerRoundTrip | crates/planner/src/config.rs:11-22 | a linear configuration built from parameters gives back a planner holding exactly those parameters, reported by `get_params` |
| Nodes.Pop | src/node/src/nodes/pid.rs:158 | popping an empty queue gives nothing and leaves it empty; otherwise it gives the front message and the rest |
| Nodes.Route | src/node/src/nodes/pid.rs:176-186 | an ended node hands its message to the robot as the control message and leaves the output queue alone; otherwise it pushes the message and leaves the robot alone |
| Nodes.PidIsEnd | src/node/src/nodes/pid.rs:134-136 | `is_end` sets the flag and changes nothing else |
| Nodes.PidSetRobot | src/node/src/nodes/pid.rs:137-142 | a series robot is attached with fresh zero memory of its dof and the flag cleared; any other robot leaves the node as it was |
| Nodes.NextTrack | src/node/src/nodes/pid.rs:158-160 | a `Joint` message at the head replaces the track; anything else keeps the old one |
| Nodes.PidUpdate | src/node/src/nodes/pid.rs:152-187 | without a robot `unwrap` panics; otherwise the PID step runs on the possibly replaced track (even when no message came), the head is popped, and the output goes to the robot or to the output queue according to the flag |
| Nodes.PidEmitsOnce | src/node/src/nodes/pid.rs:174-186 | each update emits exactly one `Joint` message: onto the queue, or, once ended, as the robot's control message |
| Nodes.PidHoldsTrack | src/node/src/nodes/pid.rs:158-172 | an empty input keeps the track; from zero memory the node then emits a zero output |
| Nodes.PidSetRobotClearsEnd | src/node/src/nodes/pid.rs:134-142 | attaching a series robot after `is_end` clears the flag and the memory, while a gripper leaves the flag set |
| Nodes.ImpedanceSetRobot | src/node/src/nodes/impedence.rs:99-104 | a series robot is attached with zero references of its dof and the flag cleared; any other robot changes nothing |
| Nodes.ImpedanceUpdateAsWritten | src/node/src/nodes/impedence.rs:114-163 | an ended node that accepts a reference asks for the robot's write lock while still holding its read guard, which never succeeds |
| Nodes.ImpedanceUpdate | src/node/src/nodes/impedence.rs:114-163 | a missing or unusable head is popped and ignored; otherwise the reference is taken, the output computed and routed to the robot or the queue, failing only on a shape mismatch |
| Nodes.ImpedanceEndDeadlocks | src/node/src/nodes/impedence.rs:116-159 | the as-written update agrees with the corrected one until `is_end`, and after it blocks on every accepted reference the corrected one hands to the robot |
| Nodes.ImpedanceRestsOnReference | src/node/src/nodes/impedence.rs:123-161 | a robot on its reference gets a zero output pushed |
| Nodes.PositionIsEnd | src/node/src/nodes/position.rs:69-71 | `is_end` sets the flag and keeps the robot |
| Nodes.PositionSetRobot | src/node/src/nodes/position.rs:72-76 | only a series robot is attached, and the flag is kept |
| Nodes.PositionUpdate | src/node/src/nodes/position.rs:84-96 | a popped message becomes the robot's control message once ended and is dropped before; only an ended node without a robot fails, on `unwrap` |
| Nodes.PositionLastWins | src/node/src/nodes/position.rs:84-96 | draining a queue into an ended node leaves the last message as the control message; before `is_end` the node is unchanged |
| Nodes.AsJoints | src/node/src/nodes/interp.rs:61-65 | each track point becomes one `Joint` message, in order |
| Nodes.Approach | src/node/src/nodes/interp.rs:54 | a single joint target's track starts at 0.3 q + 0.7 target, entry by entry |
| Nodes.TrackFor | src/node/src/nodes/interp.rs:52-58 | `Joint` and `JointList` targets get a track, other kinds none; a single joint is interpolated from the approach point, a list by `lerp` from q |
| Nodes.InterpUpdate | src/node/src/nodes/interp.rs:31-66 | without a robot `unwrap` panics; an unknown function or an empty queue changes nothing; a popped target is remembered and, when it has a track, that track replaces the whole output queue |
| Nodes.InterpStopsShort | src/node/src/nodes/interp.rs:52-65 | a joint target yields `ninter` messages starting at the approach point and never reaching a distinct target |
| Nodes.ApproachFixed | src/node/src/nodes/interp.rs:54 | the approach point equals the target only when the robot is already there |
| Optimize.ColVals | src/planner/src/utilities/optimize.rs:38-43 | one stored value per non-zero row of the column |
| Optimize.ColumnFacts | src/planner/src/utilities/optimize.rs:38-43 | scanning a column stores exactly its non-zero entries, each with its row, rows ascending |
| Optimize.ColumnValues | src/planner/src/utilities/optimize.rs:39-41 | every stored (row, value) pair is a non-zero entry of the column, and every non-zero entry is stored |
| Optimize.ColumnAscending | src/planner/src/utilities/optimize.rs:38 | the stored rows of a column strictly ascend |
| Optimize.Prefix | src/planner/src/utilities/optimize.rs:33-45 | after k columns `indptr` has k + 1 entries, opens at 0 and ends at the number of stored entries, which `indices` and `data` both hold |
| Optimize.ScanColumn | src/planner/src/utilities/optimize.rs:38-43 | the row loop appends exactly column j's non-zero rows to `indices` and their values to `data`, in row order |
| Optimize.PrefixNext | src/planner/src/utilities/optimize.rs:37-45 | closing column j appends its rows and values and pushes the new entry count onto `indptr` |
| Optimize.MatrixToCsc | src/planner/src/utilities/optimize.rs:30-53 | the loops build a well-formed CSC triple that decodes back to the dense matrix |
| Optimize.Decode | src/planner/src/utilities/optimize.rs:46-52 | the dense matrix a CSC triple stands for has its declared shape |
| Optimize.LookupAppend | src/planner/src/utilities/optimize.rs:39-41 | looking a row up in appended entries finds it in the first part when it is there, and in the second otherwise |
| Optimize.LookupAbsent | src/planner/src/utilities/optimize.rs:39 | a row that is not stored reads as zero |
| Optimize.ColumnLookup | src/planner/src/utilities/optimize.rs:38-43 | looking row i up in a column's stored entries gives back entry (i, j), zero included |
| Optimize.PrefixStep | src/planner/src/utilities/optimize.rs:37-45 | scanning one more column only appends to the three arrays |
| Optimize.PrefixGrows | src/planner/src/utilities/optimize.rs:37-45 | what the first k columns wrote is never changed by later columns |
| Optimize.EncodedColumn | src/planner/src/utilities/optimize.rs:37-45 | column j's range of `indices` and `data` holds exactly its non-zero rows and values |
| Optimize.EncodeShaped | src/planner/src/utilities/optimize.rs:30-53 | the result is well formed: `indptr` opens at 0, never decreases, ends at the entry count, and every row index is below `nrows` |
| Optimize.EncodedEntries | src/planner/src/utilities/optimize.rs:37-45 | each encoded column lists the column's non-zero entries with ascending rows |
| Optimize.ColumnOf | src/planner/src/utilities/optimize.rs:44 | every stored position lies in the range of some column |
| Optimize.IndptrBounded | src/planner/src/utilities/optimize.rs:44 | no `indptr` entry exceeds the last one |
| Optimize.RoundTrip | src/planner/src/utilities/optimize.rs:30-53 | decoding the encoding of any matrix gives the matrix back |
| Optimize.Gram | src/planner/src/utilities/optimize.rs:16 | `vᵀ v` is square and entry (i, k) is the dot product of columns i and k |
| Optimize.DotSymmetric | src/planner/src/utilities/optimize.rs:16 | the dot product is symmetric |
| Optimize.Weighted | src/planner/src/utilities/optimize.rs:25 | the weighted cost matrix is dim by dim |
| Optimize.GetOptimizeFunction | src/planner/src/utilities/optimize.rs:5-28 | it succeeds iff 2 offset ≤ dim and three weights are given; `dim - offset` or `dim - 2 offset` below zero panics with the subtraction overflow, a short weight list with the index panic; otherwise it returns a dim by dim CSC triple of w0 I + w1 VᵀV + w2 AᵀA |
| Optimize.WeightedSymmetric | src/planner/src/utilities/optimize.rs:10-25 | the cost matrix is symmetric for every offset and weight |
| Optimize.WeightedEntrySymmetric | src/planner/src/utilities/optimize.rs:10-25 | each pair of mirrored cost entries is equal |
| Optimize.GramSymmetric | src/planner/src/utilities/optimize.rs:16 | `vᵀ v` is symmetric |
| Logs.DecodeLine | scripts/print/log_reader.py:16-20 | a line contributes its document when `json.loads` accepts it and nothing when it raises |
| Logs.Decoded | scripts/print/log_reader.py:13-20 | the decoded logs number at most the lines |
| Logs.DecodedAppend | scripts/print/log_reader.py:15-20 | lines are decoded independently and in file order: decoding a concatenation concatenates the results |
| Logs.Stamp | scripts/print/log_reader.py:21 | a log's instant exists iff it has a string `timestamp` that `fromisoformat` accepts, and is that instant |
| Logs.Read | scripts/print/log_reader.py:12-22 | a file with no decodable line raises `IndexError`; otherwise `read` succeeds iff the first log's timestamp parses, returns every decoded log and sets the origin to the first log's instant |
| Logs.Select | scripts/print/log_reader.py:28 | a filtering comprehension keeps at most the logs it is given |
| Logs.ByNode | scripts/print/log_reader.py:28 | `read_by_node` keeps at most the logs it is given |
| Logs.SelectFails | scripts/print/log_reader.py:28 | the comprehension raises exactly when some log lacks the looked-up field |
| Logs.SelectMembers | scripts/print/log_reader.py:28 | the kept logs are exactly the logs whose field equals the wanted value |
| Logs.SelectAppend | scripts/print/log_reader.py:28 | the comprehension keeps file order: filtering a concatenation concatenates the filtered parts |
| Logs.ByNodeSpec | scripts/print/log_reader.py:27-28 | selecting by node raises iff some log has no `fields.node`, keeps exactly the logs of that node, and keeps their order |
| Logs.ByNodeHead | scripts/print/log_reader.py:28 | a first log of the node heads the node's logs |
| Logs.ReadByNode | scripts/print/log_reader.py:27-28 | `read_by_node` succeeds only after a successful `read`, and then selects the node's logs from all decoded ones |
| Logs.HasKeys | scripts/print/log_reader.py:39 | no keys always qualify; otherwise a log qualifies only if its `fields` contains every key |
| Logs.WithKeys | scripts/print/log_reader.py:38-39 | with no keys every log is kept; otherwise only logs that have every key, at most as many as given |
| Logs.Relative | scripts/print/log_reader.py:34-40 | the seconds are defined iff every timestamp parses, one per log, each the log's instant minus the origin |
| Logs.TimestampsByKeys | scripts/print/log_reader.py:30-41 | `read_timestamps_by_keys` succeeds only after a successful `read`, and gives the relative times of the node's logs that carry every key |
| Logs.NoKeysKeepsAll | scripts/print/log_reader.py:33-40 | with no keys every log of the node gets a timestamp |
| Logs.FirstLogAtZero | scripts/print/log_reader.py:21-40 | when the file's first log belongs to the node and has the keys, its timestamp opens the list at 0 seconds |
| Logs.Values | scripts/print/log_reader.py:52-60 | every log with the key gives one value except those whose text `json.loads` rejects, which are skipped |
| Logs.TimestampValue | scripts/print/log_reader.py:43-61 | `read_timestamp_value` gives the same times as the single-key timestamp query, and one value fewer per undecodable field, so the two lists can differ in length |
| Logs.UsageIntervals | scripts/print/log_reader.py:63-68 | `read_usage_intervals` succeeds iff both queries do, and returns the `begin` and the `end` timestamps unpaired |
| Logs.UnpairedInterval | scripts/print/log_reader.py:63-68 | a node that logged `begin` but no `end` gets one begin time and no end time |
| Logs.ReplaceChar | scripts/print/log_info.py:26-28 | replacing a character that does not occur leaves the text as it is |
| Logs.ZuluOffset | scripts/print/log_info.py:26-28 | a timestamp ending in its only `Z` gets the `+00:00` offset in its place |
| Logs.Floats | scripts/print/log_info.py:31 | the list is defined iff every part parses as a float, one number per part, in order |
| Logs.EntryOf | scripts/print/log_info.py:25-32 | a match becomes an entry iff its timestamp (with `Z` as `+00:00`) and every comma-separated input parse; the entry keeps module and node |
| Logs.CurrentDropped | scripts/print/log_info.py:16-32 | the optional `current` group never reaches the entry |
| Logs.ParseLogs | scripts/print/log_info.py:20-33 | parsing only appends, at most one entry per line, and lines the pattern does not match add nothing |
| Logs.ParseLogsAppend | scripts/print/log_info.py:22-33 | lines are parsed one after another: parsing a concatenation parses the second part after the first |
| Logs.ParseOneLine | scripts/print/log_info.py:23-33 | an unmatched line is skipped and a matched, parseable line appends its entry |
| Logs.Pick | scripts/print/log_info.py:39-41 | the picked entries are exactly the entries of the node that have the key |
| Logs.PickAppend | scripts/print/log_info.py:39-41 | picking keeps order across a concatenation |
| Logs.Times | scripts/print/log_info.py:43 | one timestamp per picked entry, in order |
| Logs.FieldValues | scripts/print/log_info.py:44 | one value of the key per picked entry, in order |
| Logs.FilterLogs | scripts/print/log_info.py:35-46 | a requested pair is in the result iff some entry matches it, and maps to those entries' timestamps and values |
| Logs.FilterKeeps | scripts/print/log_info.py:38-45 | every entry matching a requested pair contributes its timestamp |
| Json.LoadDump | src/node/src/simulators/bullet.rs:143-157 | every JSON document printed, compactly as serde_json does or spaced as json.dumps does, parses back to the same document whenever the number spelling reads back each number the document holds |
| Json.SoundSpellingExists | src/node/src/simulators/bullet.rs:143-157 | for every finite set of numbers there is a spelling that prints each as a number token reading back as itself, so the round trip's hypothesis can always be met |
| Json.RoundTripSpellable | src/node/src/simulators/bullet.rs:143-157 | every document, in either style, survives printing and parsing under some spelling of its numbers |
| Json.Get | scripts/print/log_reader.py:28 | a member lookup finds a value iff some member has the key, and the value found belongs to a member with that key |
| Json.GetIsLast | scripts/print/log_reader.py:28 | the value found is that of the last member with the key: no later member has it, as json.loads keeps the last duplicate |
| Json.SurrogatesRoundTrip | src/node/src/simulators/bullet.rs:153 | a character beyond the basic plane split into its UTF-16 surrogate pair and joined again is itself |
| Json.SurrogatePairDecodes | src/node/src/simulators/bullet.rs:153 | a `\u` escape of a high surrogate followed by a `\u` escape of a low surrogate reads as the one character the pair encodes, consuming both escapes |
| Json.WideEscapeReadsBack | src/node/src/simulators/bullet.rs:153 | a character beyond the basic plane, written as `json.dumps(ensure_ascii=True)` writes it, reads back as itself |
| Json.LoneSurrogateRefused | src/node/src/simulators/bullet.rs:153 | a low surrogate escape, or a high one that no escape follows, is refused |
| Json.EmojiPairDecodes | src/node/src/simulators/bullet.rs:153 | `\ud83d\ude00` reads as U+1F600 |
| Json.HexTextReadsBack | src/node/src/simulators/bullet.rs:153 | the four hex digits written for a code unit read back as that code unit |
| Py.Split | scripts/print/log_info.py:31 | `str.split` on one character gives one more part than there are separators, no part holds the separator, and joining the parts gives the text back |
| Py.Contains | scripts/print/log_reader.py:39 | `in` is defined on dicts (key membership), strings (substring) and lists (element), and raises TypeError on anything else |
| Py.Lookup | scripts/print/log_reader.py:28 | subscripting by a key succeeds iff the value is a dict with the key, gives that member, and raises KeyError on a dict without it and TypeError on anything else |
| Py.Index | crates/simulator/scripts/robot.py:111-113 | subscripting by a position succeeds iff it is inside the list or string, gives that element or character, and raises IndexError past the end and KeyError on a dict |
| Py.Iterate | crates/simulator/scripts/main.py:27 | iteration is defined on lists (their items), strings (their characters) and dicts (one item per key), and raises TypeError on anything else |
| Py.AsFloat | crates/simulator/scripts/robot.py:61-69 | a number converts to itself and a bool to 1.0 or 0.0; anything else raises TypeError |
| Py.Repeat | crates/simulator/scripts/main.py:31 | `s * n` on a string has n times the length, starts with s, and holds only characters of s |
| Py.IntOfDigits | crates/simulator/scripts/main.py:31 | `int()` reads a plain string of decimal digits as the number it spells |
| Py.LiteralOfDigits | crates/simulator/scripts/main.py:31 | once blanks are stripped, a literal of plain digits carries no sign and reads as the number it spells |
| Py.IntRefusesStray | crates/simulator/scripts/main.py:31 | `int()` raises ValueError on a string holding a character that is no digit, underscore, sign or blank, wherever it stands |
| Py.LiteralRefusesStray | crates/simulator/scripts/main.py:31 | once blanks are stripped, a literal holding a character that is no digit, underscore or sign raises ValueError |

## Left out

- Physics: `stepSimulation` is counted, but it moves no joint. Joint states change only through `resetJointState`, because the dynamics belong to pybullet.
- Sockets, files, console output and sleeping are not performed. Replies are an input sequence, files are a map from path to text, and what a script prints, sends, steps and disconnects is a trace of events.
- `KeyboardInterrupt` is taken to arrive once the peer's replies run out. In the scripts it comes from the user at any moment.
- Threads, queues and locks: a `SegQueue` is a sequence and an `RwLock` is a plain value. The impedance node's lock-order fault is the one exception and is modelled as an error. Lock poisoning is not modelled.
- Floating point: `f64` is `real`. Rounding, NaN and infinity are not modelled.
- ControlLaw.PidStep: a zero period is an error here. Rust's `f64` division gives an infinite or NaN derivative and carries on.
- Number spelling: ryu on the Rust side and `repr(float)` on the Python side are foreign code. Both `Json.Dump` and `Json.Load` take a `NumberText` parameter. The round trip holds for any spelling that reads back each number the document holds (both libraries do this for every binary64 value), and `Json.SoundSpellingExists` builds one for any finite set of numbers. The spelling that lemma builds is not ryu's or repr's.
- PyLegacy.DigitStringSteps: Python 3.11 and later refuse to convert more than 4300 digits, so there a digit string longer than 17 characters raises ValueError. The model has no such limit, because the Python version is not fixed.
- Py.IntOfString: Unicode digits and blanks, which Python's `int()` also accepts, are left out. Only ASCII is modelled.
- String escaping: the printer escapes control characters as `\u00XX` and leaves other text raw. serde_json and `json.dumps(ensure_ascii=True)` spell some strings differently. The parser reads their escapes, including a character beyond the basic plane written as a `\u` surrogate pair (`Json.WideEscapeReadsBack`).
- Json.Unescape: a lone UTF-16 surrogate escape (a low one, or a high one not followed by a low one) is refused, because a Dafny `char` cannot hold it. serde_json refuses it too when decoding a `String`, but Python's `json.loads` accepts it into a `str`, so a document with a lone surrogate that the scripts read raises here.
- JSON integers and floats are one kind of number. Only `Registries.DecodeI32` tells whole numbers apart, as serde does for an `i32` field.
- Regular expressions, `float()`, `datetime.fromisoformat` and `json.loads` in the log readers are parameters (`Pattern`, `FloatText`, `Clock`, `Loads`).
- `LogReader.read_by_level` and `LogPlotter.plot` are left out, because they are UI and an unused filter.
- `filter_logs` returns a Python dict. The model returns a map, so insertion order is not kept.
- Hash iteration order in the task manager is a parameter (`order`) of `TaskDag.OpenTasks`, where it decides the result. A `HashSet` of successors is a set.
- TaskDag.RemoveTask: when one successor has no in-degree entry and another is at zero, `remove_task` panics with whichever fault the `HashSet` iteration reaches first. The model has no order parameter here and always reports the missing entry (`UnwrapNone`). Both outcomes are panics; only which panic message is fixed.
- Messages.Field: serde's derived decoder walks the members in document order and reports the first duplicate field when it meets it, before any missing field and before a later member's value error. The model looks the fields up one at a time in declaration order. So an object that is refused in both is refused with possibly another message: `{"translation": …, "translation": …}` is "duplicate field `translation`" in serde but "missing field `rotation`" in `DecodePose`. Which objects are accepted, and what they decode to, does not depend on this order.
- `usize` is `nat`. A subtraction that would wrap is the debug-build panic (`attempt to subtract with overflow`). Overflow of `2 * offset` in `get_optimize_function` is not modelled.
- nalgebra and serde panic texts are modelled as fixed error strings. Shape mismatches are one `dimension mismatch` error.
- Obstacle pose interpolation (`lerp_slerp`) and the obstacle list's `update_pose` are parameters. Capsule geometry, collision distance and forward kinematics (`cul_*`) are left out.
- CFS planning and the OSQP solve are left out. `get_optimize_function` is modelled up to the CSC matrix it hands over.
- ControlLaw.PidStep: a gain matrix is kept as its list of rows, so a gain with no rows carries no column count and is not shape-checked. A 0×c gain applied to a vector whose length is not c gives `Ok` with an empty output here, whereas nalgebra panics with a dimension mismatch.
- ControlLaw.ImpedanceOutput: the same holds for its gains. A gain with no rows is not shape-checked, and nalgebra's dimension-mismatch panic for a 0×c gain is not modelled.
- `DPidDiag` is left out, because its vector gains have no settled meaning.
- The `EndSpace` target has no arm in the linear series planner's `match`. The model reports it as an error.
- `from_json` node constructors are not modelled. A registry records the kind it would build and the arguments it passes through.
- Recording (`recoder`), tracing and `println!` are left out, because they do not change state.
- Bullet.FixedUpdate: `RobotStateN` is not part of this model, because its definition is not among the sources; crates/message/src/state.rs defines only `RobotState { q, q_dot }`. `FixedUpdate` decodes the message itself with `ParseState(message, t, Fixed(b.n))`, which assumes that `RobotStateN<N>` has `DRobotState`'s six variants (`Pose`, `Joint`, `Velocity`, `Acceleration`, `JointVel`, `JointVelAcc`). It also assumes serde's externally tagged layout for them, with every vector in `SVector<f64, N>`'s layout of exactly N entries. Only the `Joint`, `Velocity` and `JointVel` arms (bullet.rs:202-206) are in the source; a message that would decode under the real `RobotStateN` but not under this assumed shape, or the other way round, is decoded here differently from the program.
- `Target::Transform` is used by the obstacle releaser but missing from the shown target enum. The model adds it.
- The `RobotType` handle is reduced to its two cases, a series robot or a gripper.
- The series-robot state record shown lacks `control_message`, but `panda.rs:27` sets it. The model keeps the field.
- The JSON layouts of nalgebra's `DVector`, `SVector` and `Isometry3` come from the serde and nalgebra libraries, not from this repository.

## Findings

| source | as written | input that shows it | evidently intended | confidence | as-written member | corrected member |
|---|---|---|---|---|---|---|
| src/robot/src/robots/robot_branch.rs:76 | `split` slices `indices[i]..indices[i+1]+1`, so each slice takes one extra element and neighbours overlap | a branch of one 1-joint robot: `merge([[5]])` is `[5, 0]` and `split` returns `[[5, 0]]` | slice `indices[i]..indices[i+1]`, so `split` undoes `merge` | not executed | RobotBranch.SplitAsWrittenCounterexample | RobotBranch.SplitMerge |
| scripts/simulators/sim_pybullet.py:91 | the loop calls `req.receive_command()`, which `ZmqReq` does not define | any run that loads a robot from a file: one send, then AttributeError, then `disconnect`, with no step | call `receive()`, whose own `json.loads` plus the loop's undoes the Rust side's double encoding | not executed | PySim.FilePathAsWritten | Exchange.ReplyDecodedTwice |
| scripts/simulators/sim_pybullet.py:47 | `parse_text_input` returns pairs `(type, name)`, but the loop at line 78 unpacks three values | the command line `panda_1`: ValueError before the loop, and `disconnect` never runs | yield `(type, name, position)` triples | not executed | PySim.TextPathAsWritten | PySim.TextPathCorrected |
| scripts/simulators/robot_pybullet/robot.py:100-107 | `get_state` sends plain lists, but the Rust node at src/node/src/simulators/bullet.rs:153 parses `DRobotState` with nalgebra's `[data, nrows, null]` vector layout | any robot with joints: the `unwrap` on the parse panics | send each vector in the DVector layout | not executed | Exchange.FlatStatesPanic | Exchange.DynStatesApply |
| src/manager/src/task_manager.rs:66-69 | a repeated `rely` id adds one edge but counts twice in the in-degree | task k relying on `[p, p]`: after `p` is removed, k's count stays 1 and k never opens | count each distinct predecessor once | not executed | TaskDag.DuplicateRelyNeverOpens | TaskDag.DistinctRelyOpens |
| scripts/simulators/robot_pybullet/robot.py:138-143 | the `*WithPeriod` forms read `cmd[tag][1]`, which is the whole DVector `[data, nrows, null]` | `JointWithPeriod(0.01, q)` for a robot with joints: pybullet gets a list and raises TypeError | read `cmd[tag][1][0]`, the data | not executed | PyRobot.ExecutePeriodAsWritten | PyRobot.ExecuteIntended |
| crates/simulator/scripts/main.py:2 | imports `pybullet_init`, but crates/simulator/scripts/robot.py:4 defines `pubullet_init` | any run: ImportError at the import, nothing loaded or sent | one spelling on both sides | not executed | PyLegacy.ImportFails | PyLegacy.MainRuns |
| src/node/src/nodes/impedence.rs:153-159 | once `is_end` is set, `update` asks for the robot's write lock while its read guard from line 116 is still alive | an ended impedance node with a robot and a `Joint` reference in its queue: the write never succeeds | drop the read guard first, as src/node/src/nodes/pid.rs:156 does | not executed | Nodes.ImpedanceEndDeadlocks | Nodes.ImpedanceUpdate |
