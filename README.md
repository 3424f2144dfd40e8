# FluentNao translator: pose combination and fluent rendering

This project models the two pieces of the nao-recorder FluentNao translator
whose behaviour its unit tests fix:

- **the fluent renderer** `commands_to_text(commands, is_blocking, fluentnao)`
  turns an ordered list of `(name, [ints])` commands into one chained call
  expression, `name(p0,p1,...)` per command, joined by single dots; an empty
  list gives the empty string whatever the options are;
- **the bilateral combination rule** of `detect_command(joint_dict, joint_names)`:
  each side (left, right) of a group (`arms` for the shoulders, `hands`)
  gets a symbol; agreeing sides give one command `<group>.<symbol>`;
  differing sides give two, `<group>.<sideA>_<symA>` and then the bare
  `<sideB>_<symB>`, either side first. A shoulder command carries the pitch
  offset at index 1 and the roll offset at index 2, measured from the
  canonical pose of its symbol.

The implementation module `translators.fluentnao.core` and the pose fixtures
of `testutil` are not part of this model. What the lemmas state about the
sides' outcomes and about the renderer comes from the assertions of
`src/test/python/recorder_tests/test_fluentnao_translator.py`; the choices
listed below fill in what those assertions leave open.
Everything is pure: datatypes, functions and lemmas.

Files:

- `wrappers.dfy`: `Option`.
- `decimal.dfy` (module `Decimal`): decimal text of integers (`IntToString`)
  and its reader `ReadInt`, with the round trip.
- `fluent.dfy` (module `Fluent`): `Command`, `JoinParams`, `RenderCommand`,
  `Chain`, `CommandsToText`, and a reader `ReadChain` for the rendered text,
  which is the inverse the round-trip lemmas use.
- `detect.dfy` (module `Detect`): sides, the shoulder and hand vocabularies,
  `Combine`, the shoulder offsets, the frame, `DetectArms`, `DetectHands`,
  `DetectCommand`, and the lemmas the tests assert.

Modelling choices:

- Shoulder angles are whole degrees (`int`): the tests compare against
  `round(math.degrees(...))`, and the model starts after that conversion.
- How one side is classified (the threshold cut points), the offsets of
  `down` and `back`, the value of parameter slot 0 of a shoulder command,
  and which side is listed first when the sides differ are not visible.
  They are inputs, bundled in `Detect.Calibration`, and every lemma holds
  for every choice of them. The side listed first is chosen per call, from
  the group and the two sides' symbols, so it may differ between arms and
  hands and between poses.
- The right shoulder's roll is mirrored into the left side's convention
  before it is classified (`Detect.RightAsLeft`); the tests do not show this,
  and since the classification is an input it constrains no lemma.
- When the sides agree, the single command carries the left side's
  parameters, as the tests compute the expected offsets from the left
  shoulder's angles.
- A shoulder command carries exactly three parameters, `[lead, pitch offset,
  roll offset]`; the tests read only indices 1 and 2, so the count and slot 0
  are the model's choice.
- When both groups are observed, the arm commands come before the hand
  commands; no test fixes that order.
- Hand commands carry no parameters, as the tests' messages write
  `hands.close()`.
- For a non-empty list the model assumes that the `fluentnao` root is written
  verbatim before the chain and that, when blocking, a marker is written after
  it; for an empty list neither is written. The marker's text is a parameter
  (`blockingSuffix`), since no test fixes it.

## Model

| member | source | states |
|---|---|---|
| `Fluent.CommandsToText` | src/test/python/recorder_tests/test_fluentnao_translator.py:37-40 | the text is empty exactly when the list is, whatever `is_blocking` and `fluentnao` are |
| `Fluent.EmptyListText` | src/test/python/recorder_tests/test_fluentnao_translator.py:16-20 | an empty list renders as `""` with the default options and with `is_blocking=True, fluentnao="nao."` alike |
| `Fluent.OneCommandExample` | src/test/python/recorder_tests/test_fluentnao_translator.py:22-27 | `[("arms.forward",[0,0,0])]` renders as `arms.forward(0,0,0)` |
| `Fluent.TwoCommandsExample` | src/test/python/recorder_tests/test_fluentnao_translator.py:29-35 | `[("arms.left_forward",[0,0,0]),("right_forward",[0,0,0])]` renders as `arms.left_forward(0,0,0).right_forward(0,0,0)` |
| `Fluent.TwoCommandsText` | src/test/python/recorder_tests/test_fluentnao_translator.py:29-35 | with the default options, two commands render as the two single renderings joined by exactly one `.`, in list order, the second name as given |
| `Fluent.ChainAppend` | src/test/python/recorder_tests/test_fluentnao_translator.py:29-35 | concatenating two non-empty command lists renders as their two chains joined by one `.` |
| `Decimal.IntToString` | src/test/python/recorder_tests/test_fluentnao_translator.py:26 | an integer's text starts with `-` exactly when it is negative, and reads back as that integer with nothing left over |
| `Fluent.JoinParams` | src/test/python/recorder_tests/test_fluentnao_translator.py:26 | the parameter text is empty exactly for no parameters, and has at least 2n−1 characters for n parameters; the exact comma-separated form is stated by `Fluent.ReadIntListJoin` |
| `Fluent.RenderCommand` | src/test/python/recorder_tests/test_fluentnao_translator.py:22-27 | a rendered command whose name holds no `(` reads back as exactly that command |
| `Fluent.ReadCommandText` | src/test/python/recorder_tests/test_fluentnao_translator.py:22-27 | for a name without `(`, reading `name(p0,...)` back gives the name and the parameters exactly, and leaves the following text untouched |
| `Fluent.Chain` | src/test/python/recorder_tests/test_fluentnao_translator.py:22-35 | the chain is empty exactly for no commands, and reads back as exactly the commands in order when no name holds `(` |
| `Fluent.JoinParamsAlphabet` | src/test/python/recorder_tests/test_fluentnao_translator.py:26 | parameter text holds only digits, minus signs and commas, so no spaces |
| `Fluent.CommandsToTextRoundTrip` | src/test/python/recorder_tests/test_fluentnao_translator.py:15-40 | with the default options the text of every list whose names hold no `(` reads back as that list, so for such lists rendering loses nothing |
| `Decimal.NatToString` | src/test/python/recorder_tests/test_fluentnao_translator.py:26 | a natural number's text is non-empty and starts with a digit |
| `Decimal.NatToStringSpells` | src/test/python/recorder_tests/test_fluentnao_translator.py:26 | a natural number's text is all digits, has no leading zero, and spells the number |
| `Decimal.ReadIntToString` | src/test/python/recorder_tests/test_fluentnao_translator.py:26 | reading an integer's text back gives the integer and leaves what follows it, when that does not start with a digit |
| `Decimal.IntToStringInjective` | src/test/python/recorder_tests/test_fluentnao_translator.py:26 | different parameters never render to the same text |
| `Detect.Combine` | src/test/python/recorder_tests/test_fluentnao_translator.py:164-183 | agreeing sides give one command `<group>.<symbol>`; differing sides give two commands named as one of the two accepted pairs: the side listed first as `<group>.<side>_<symbol>` and the other as `<side>_<symbol>`, each name with its own side's parameters |
| `Detect.AcceptedPairDetermines` | src/test/python/recorder_tests/test_fluentnao_translator.py:179 | an accepted pair of names fixes which symbol each side has: no third pairing is admitted |
| `Detect.ArmPoseNameInjective` | src/test/python/recorder_tests/test_fluentnao_translator.py:60 | two shoulder poses have the same symbol exactly when they are the same pose |
| `Detect.HandPoseNameInjective` | src/test/python/recorder_tests/test_fluentnao_translator.py:293 | two hand poses have the same symbol exactly when they are the same pose |
| `Detect.ShoulderOffsets` | src/test/python/recorder_tests/test_fluentnao_translator.py:63-125 | the forward, up and out offsets are (0, 0) at those poses' canonical angles, and determine the shoulder angles they came from |
| `Detect.DetectArms` | src/test/python/recorder_tests/test_fluentnao_translator.py:45-283 | the shoulders give one command when they are classified alike and two when they are not, never another number |
| `Detect.DetectHands` | src/test/python/recorder_tests/test_fluentnao_translator.py:285-325 | the hands give one command when they are classified alike and two when they are not, never another number |
| `Detect.DetectCommand` | src/test/python/recorder_tests/test_fluentnao_translator.py:51-52 | no command results exactly when neither group is both asked for and present in the frame |
| `Detect.ShouldersOnly` | src/test/python/recorder_tests/test_fluentnao_translator.py:51-52 | asking for the four shoulder joints gives exactly the arm commands |
| `Detect.HandsOnly` | src/test/python/recorder_tests/test_fluentnao_translator.py:291-292 | asking for `LHand` and `RHand` gives exactly the hand commands |
| `Detect.ArmsAgree` | src/test/python/recorder_tests/test_fluentnao_translator.py:45-125 | both shoulders in one pose give exactly one command `arms.<pose>` with three parameters; forward carries (pitch, −roll), up (−90 − pitch, −roll), out (−pitch, roll − 90) of the left shoulder at indices 1 and 2 |
| `Detect.ArmsForwardAtZero` | src/test/python/recorder_tests/test_fluentnao_translator.py:45-70 | all-zero shoulders classified forward give the single command `arms.forward` with zero offsets |
| `Detect.ArmsDisagree` | src/test/python/recorder_tests/test_fluentnao_translator.py:164-283 | shoulders in different poses give exactly two commands named as one of the two accepted pairs |
| `Detect.ArmsLeftUpRightOut` | src/test/python/recorder_tests/test_fluentnao_translator.py:164-182 | left up and right out give `arms.left_up` then `right_out`, or `arms.right_out` then `left_up` |
| `Detect.HandsDisagree` | src/test/python/recorder_tests/test_fluentnao_translator.py:306-325 | differing hands give exactly two commands named as one of the two accepted pairs |
| `Detect.DetectedTextRoundTrip` | src/test/python/recorder_tests/test_fluentnao_translator.py:22-35 | with the default options, the text of every detection reads back as exactly the detected commands |

## Left out

- Radian-to-degree conversion and Python's `round` over floats: the model works on whole degrees, so fractional angles and the rounding mode are not captured.
- The per-side threshold classification and the pose fixtures of `testutil` are not part of this model: classification is the input `Calibration.armPose` / `Calibration.handPose`, not invented cut points.
- The offsets of `down` and `back` and parameter slot 0 of a shoulder command are not asserted by any test; they are inputs (`Calibration.restOffsets`, `Calibration.lead`).
- Which side the implementation lists first when the sides differ is not visible; it is the input `Calibration.first`, a function of the group and the two symbols.
- The exact blocking marker text is not fixed by any test; it is the parameter `blockingSuffix`.
- Where the `fluentnao` root and the blocking marker go in the text of a non-empty list is not asserted by any test: the model assumes the root before the chain and the marker after it, and the lemmas `Fluent.RootQualifiesFirstCommand` and `Fluent.BlockingAppendsSuffix` state only that assumed placement, so they have no row above.
- Hand apertures are readings between closed and open, not angles; the frame holds them as integers (a scaled reading) and only `Calibration.handPose` interprets them, so no lemma depends on the scale or on where the open/close midpoint lies.
- Elbow classification: no test in the visible file exercises it.
- A group whose joints are only partly asked for or present: the visible tests never build that case, and the model gives no command for such a group.
- `detect_command` with both groups asked for at once is not exercised by the tests; the model gives the arm commands followed by the hand commands.
- Parameters that are floats (Python 2 `round` returns a float): the renderer models integer parameters only.
- The unittest harness and `get_translator`.
