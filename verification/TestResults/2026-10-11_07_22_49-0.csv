TestResult.DisplayName,TestResult.Outcome,TestResult.Duration,TestResult.ResourceCount,RandomSeed
DefaultEnvParser.ElementStepGrowsArray (correctness),Passed,00:00:00.4779900,924638,0
DefaultEnvParser.SetPathReadBack (correctness),Passed,00:00:00.4039711,672283,0
DefaultEnvParser.SetPathKind (correctness),Failed,00:00:00.3365104,275145,0
DefaultEnvParser.ElementShape (well-formedness),Failed,00:00:00.3244551,439962,0
DefaultEnvParser.ElementOverFalsyReplaces (correctness),Passed,00:00:00.2867604,500151,0
DefaultEnvParser.SetPathFrame (correctness),Passed,00:00:00.2687299,373296,0
DefaultEnvParser.ElementShape (correctness),Passed,00:00:00.2612737,350503,0
DefaultEnvParser.Placeholders (well-formedness),Passed,00:00:00.2231356,49559,0
DefaultEnvParser.Padded (well-formedness),Passed,00:00:00.2048333,54546,0
DefaultEnvParser.LastVariableWins (correctness),Passed,00:00:00.1807342,223489,0
DefaultEnvParser.LengthKeyFails (correctness),Failed,00:00:00.1637314,218770,0
DefaultEnvParser.Descend (well-formedness),Passed,00:00:00.1621151,155457,0
DefaultEnvParser.BuildFromIsObject (well-formedness),Passed,00:00:00.1592587,202118,0
DefaultEnvParser.PlainStepReuses (correctness),Failed,00:00:00.1520067,209049,0
DefaultEnvParser.BuildFromStops (well-formedness),Passed,00:00:00.1506383,203385,0
DefaultEnvParser.Assign (well-formedness),Passed,00:00:00.1389367,261100,0
DefaultEnvParser.BuildFrom (well-formedness),Passed,00:00:00.1377763,205014,0
DefaultEnvParser.Grow (well-formedness),Passed,00:00:00.1362174,159160,0
DefaultEnvParser.BuildFromStops (correctness),Passed,00:00:00.1345129,229498,0
DefaultEnvParser.BuildFromIsObject (correctness),Passed,00:00:00.1332245,219040,0
DefaultEnvParser.LastPlainOverwrites (correctness),Passed,00:00:00.1287226,174093,0
DefaultEnvParser.LastVariableWins (well-formedness),Passed,00:00:00.1284401,211212,0
DefaultEnvParser.BuildTreeIsObject (correctness),Passed,00:00:00.1185056,205152,0
DefaultEnvParser.SetPath (well-formedness),Passed,00:00:00.1183663,154998,0
DefaultEnvParser.SetPathReadBack (well-formedness),Passed,00:00:00.1182102,156934,0
DefaultEnvParser.SetElement (well-formedness),Passed,00:00:00.1157245,177589,0
DefaultEnvParser.SetPathKind (well-formedness),Passed,00:00:00.1152844,151610,0
DefaultEnvParser.AssignFrame (correctness),Passed,00:00:00.1144161,274482,0
DefaultEnvParser.DescendShape (well-formedness),Passed,00:00:00.1135267,160363,0
DefaultEnvParser.ElementOverFalsyReplaces (well-formedness),Passed,00:00:00.1054053,158709,0
DefaultEnvParser.ElementStepGrowsArray (well-formedness),Passed,00:00:00.1052211,199409,0
DefaultEnvParser.PlainStepReuses (well-formedness),Passed,00:00:00.1037594,162318,0
DefaultEnvParser.DescendShape (correctness),Passed,00:00:00.0964399,180516,0
DefaultEnvParser.LastPlainOverwrites (well-formedness),Passed,00:00:00.0961947,152011,0
DefaultEnvParser.BuildTreeIsObject (well-formedness),Passed,00:00:00.0945414,202847,0
DefaultEnvParser.GrowFrame (correctness),Passed,00:00:00.0935807,145556,0
DefaultEnvParser.ElementOverObjectThrows (well-formedness),Passed,00:00:00.0863828,154941,0
DefaultEnvParser.LengthKeyFails (well-formedness),Passed,00:00:00.0858485,152285,0
DefaultEnvParser.AssignElement (well-formedness),Passed,00:00:00.0857604,84842,0
DefaultEnvParser.Decoded (well-formedness),Passed,00:00:00.0842298,77888,0
DefaultEnvParser.ElementOverObjectThrows (correctness),Passed,00:00:00.0811104,161200,0
DefaultEnvParser.SetPathFrame (well-formedness),Passed,00:00:00.0802401,154957,0
DefaultEnvParser.AssignElement (correctness),Passed,00:00:00.0764377,136900,0
DefaultEnvParser.SetField (well-formedness),Passed,00:00:00.0756525,156145,0
DefaultEnvParser.AssignFrame (well-formedness),Passed,00:00:00.0509146,84751,0
DefaultEnvParser.IndexKey (well-formedness),Passed,00:00:00.0469692,71236,0
DefaultEnvParser.GrowFrame (well-formedness),Passed,00:00:00.0461967,108067,0
DefaultEnvParser.ReachCons (correctness),Passed,00:00:00.0373103,65031,0
DefaultEnvParser.ReachCons (well-formedness),Passed,00:00:00.0332596,55304,0
DefaultEnvParser.Grown (well-formedness),Passed,00:00:00.0326216,54709,0
DefaultEnvParser.PathKeys (well-formedness),Passed,00:00:00.0223646,42411,0
