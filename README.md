# Merlin++ MAD lattice builder and particle species, in Dafny

This project models two parts of the Merlin++ accelerator library.

**The MAD lattice builder** (`MADInterface`). It reads an optics table one row
at a time. Each row has a KEYWORD, a NAME and numeric columns. The builder
turns the rows into an ordered list of typed accelerator components, each
tagged with its arc position `z`, grouped into nested frames. The model
covers:

- the classification of a generic MULTIPOLE row by its coefficients (`GetMutipoleType`);
- the in-place keyword rewriting (`TypeOverrides`);
- the skip of zero-length rows of ignorable types;
- the `TypeFactory` registry and its dispatch;
- every per-keyword construction rule, the multipole field coefficients and the `factorial` they use;
- the frame stack driven by LINE rows, with `ConstructNewFrame` and `EndFrame`;
- the `ConstructModel` loop itself, which keeps `z`, the momentum, the magnetic rigidity `brho` and the synchrotron-radiation momentum debit.

`ConstructModel` is a method of the class `MADInterface` and changes its
fields in place. It is proved equal to `LatticeBuilder.Build`, a left fold
of the one-row step `LatticeBuilder.Step` over the rows, first row first. `BuilderProperties`
proves what the fold keeps:

- `brho` stays equal to the rigidity of the current momentum;
- without radiation the momentum never changes, and with it the momentum never grows;
- every component sits at the start position plus the lengths placed before it;
- on a fresh start the model constructor's open frames are exactly the frames named on the stack, so a frame end never finds the constructor empty.

**The particle-species data model**:

- `ParticleInfo` records and the three default species;
- the constant `ParticleInfoDB` registry;
- the `ReferenceParticle` class (positive momentum, charge sign taken from the bound species);
- the ion, electron and muon bunches.

Ion bunches carry their own charge and mass. Electron and muon bunches are
bound to a fixed species and have a six-entry tally array that `Set` resets.

Files:

- `wrappers.dfy`: `Option` and `Outcome`.
- `physical_constants.dfy`: the physical constants and `Round`.
- `particle_info.dfy`, `particle_info_db.dfy`, `reference_particle.dfy`: the species.
- `particle_bunch.dfy`, `ion_bunch.dfy`, `electron_bunch.dfy`, `muon_bunch.dfy`: the bunches.
- `mad_table.dfy`: the table, its rows and build errors.
- `mad_components.dfy`: the components and the model-constructor record.
- `mad_factory.dfy`: the per-keyword rules and the registry.
- `multipole_type.dfy`: the MULTIPOLE classification.
- `lattice_builder.dfy`: the specification of one row and of the whole build.
- `builder_properties.dfy`: the properties of the build.
- `mad_interface.dfy`: the `MADInterface` class.

Conventions:

- A row is `Row(keyword, name, values: map<string, real>)`.
- Reading a column the row lacks is `Err(MissingColumn(column))`. The table throws there, and the exception ends `ConstructModel`.
- A field computed by dividing by zero is `Err(NonFiniteField(name))`. The source would store an infinity or a NaN there. This covers a zero length L (bends, thick magnets, solenoid, RFCAVITY) and a zero FREQ (RFCAVITY and the single-cell rule, where the half-wavelength would be infinite).
- An abort on an unknown frame code is `Err(UnknownFrameCode(name))`.

Where the code and its documentation disagree, the model follows the code:

- The antiproton's registry key is "p-", not "pbar" (`AntiprotonName`).
- The RF cavity length check warns only when the cells are longer than the element (`CavityWarningOneSided`). The single-cell rule compares one half-wavelength with L, not the rounded cells.
- A LINE name without `_` at index 1 is still pushed on and popped from the frame stack. It opens or closes a constructor frame only when MAD structures are honoured (`FrameFor`, `LineStep`).
- RCOLLIMATOR is not among the default drift types. It is the default zero-length type.
- The electron species is declared through a two-argument `ParticleInfo` call that the shown three-argument constructor does not accept. It is modelled as the registry's "e" entry: electron mass, electron MeV mass, charge -1.
- A test passes a charge to the `MADInterface` constructor. The shown constructor takes only a momentum, and so does the model.

## Model

| member | source | states |
|---|---|---|
| PhysicalConstants.Round | Merlin++/MADInterface.cpp:602 | the rounded value is an integer within one half of its argument |
| PhysicalConstants.RoundOfInteger | Merlin++/MADInterface.cpp:610 | rounding a whole number gives it back |
| ParticleSpecies.ChargeSign | Merlin++/ReferenceParticle.h:129-137 | the sign is +1, -1 or 0 exactly when the species' charge is positive, negative or zero, whatever its magnitude |
| ParticleSpecies.DefaultFor | Merlin++/ReferenceParticle.h:178-192 | the default species for a charge q is massless and its charge sign is the sign of q |
| ParticleSpecies.DefaultsDistinct | Merlin++/ParticleInfo.h:26-28 | the three defaults are massless, with charge signs +1, -1 and 0 |
| ParticleInfoDB.At | Merlin++/ParticleInfoDB.cpp:12-21 | a lookup finds a record exactly for the registered names and returns that name's record; an absent name fails instead of giving a default |
| ParticleInfoDB.RegistryKeys | Merlin++/ParticleInfoDB.cpp:12-21 | the registry has exactly the seven names "", e, e+, p, p-, muon- and muon+ |
| ParticleInfoDB.DefaultEntry | Merlin++/ParticleInfoDB.cpp:14 | the empty name maps to the default positive particle |
| ParticleInfoDB.ChargeConjugatePairs | Merlin++/ParticleInfoDB.cpp:15-20 | e/e+, p/p- and muon-/muon+ share their mass and carry opposite unit charges |
| ParticleInfoDB.AntiprotonName | Merlin++/ParticleInfoDB.cpp:18 | "pbar" is not registered; "p-" is, with charge -1 |
| ReferenceParticles.ReferenceParticle.constructor | Merlin++/ReferenceParticle.h:108-116 | needs p > 0; stores p0 = p and ct0 = 0; binds the species given, or else the default for the sign of q |
| ReferenceParticles.ReferenceParticle.GetReferenceMomentum | Merlin++/ReferenceParticle.h:119-122 | the reference momentum is always positive |
| ReferenceParticles.ReferenceParticle.GetChargeSign | Merlin++/ReferenceParticle.h:129-137 | +1, -1 or 0 exactly as the bound species' charge is positive, negative or zero |
| ReferenceParticles.ReferenceParticle.GetReferenceTime | Merlin++/ReferenceParticle.h:124-127 | the reference time ct0 that SetReferenceTime and IncrReferenceTime maintain (no contract) |
| ReferenceParticles.ReferenceParticle.GetParticleCharge | Merlin++/ReferenceParticle.h:139-142 | the bound species' charge, positive or negative exactly as GetChargeSign reports +1 or -1 |
| ReferenceParticles.ReferenceParticle.GetParticleMass | Merlin++/ReferenceParticle.h:144-147 | the bound species' mass (no contract) |
| ReferenceParticles.ReferenceParticle.GetParticleMassMeV | Merlin++/ReferenceParticle.h:149-152 | the bound species' MeV mass (no contract) |
| ReferenceParticles.ReferenceParticle.SetReferenceMomentum | Merlin++/ReferenceParticle.h:154-158 | needs p > 0; afterwards the momentum is p, and ct0 and the species are unchanged |
| ReferenceParticles.ReferenceParticle.IncrReferenceMomentum | Merlin++/ReferenceParticle.h:160-165 | needs p0 + dp > 0; stores and returns that sum, and nothing else changes |
| ReferenceParticles.ReferenceParticle.SetReferenceTime | Merlin++/ReferenceParticle.h:167-170 | only ct0 changes, to ct |
| ReferenceParticles.ReferenceParticle.IncrReferenceTime | Merlin++/ReferenceParticle.h:172-176 | only ct0 changes, by dct, and the new value is returned |
| ReferenceParticles.ReferenceParticle.SetChargeSign | Merlin++/ReferenceParticle.h:178-192 | binds the default species for the sign of q, so the charge sign becomes the sign of q; the momentum and time are unchanged |
| BunchBase.PSvectorArray.constructor | Merlin++/IonBunch.h:30-35 | a particle array holds the vectors it is given |
| IonBunches.MassToMeVPositive | Merlin++/IonBunch.cpp:21-24 | the mass-to-MeV factor c²·eV/(e·MeV) is positive |
| IonBunches.IonBunch.FromArray | Merlin++/IonBunch.h:29-37 | takes over the caller's particles, leaving that array empty; Qtot goes only to the base bunch; stores Qp and Mp unchanged; the bunch is stable with lifetime 0 |
| IonBunches.IonBunch.FromStream | Merlin++/IonBunch.h:39-45 | the particles read and the total charge go to the base bunch; stores Qp and Mp unchanged |
| IonBunches.IonBunch.Empty | Merlin++/IonBunch.h:47-55 | no particles; the macro charge Qm (default 1) goes to the base bunch, separately from Qp; stores Qp and Mp unchanged |
| IonBunches.IonBunch.Generated | Merlin++/IonBunch.h:57-61 | the generated population and the optional filter (default none) go to the base bunch; stores Qp and Mp unchanged |
| IonBunches.IonBunch.GetParticleMass | Merlin++/IonBunch.cpp:16-19 | the stored ion mass, from which the MeV mass follows by the fixed factor |
| IonBunches.IonBunch.GetParticleMassMeV | Merlin++/IonBunch.cpp:21-24 | the MeV mass is the stored mass times the fixed mass-to-MeV factor |
| IonBunches.IonBunch.GetParticleLifetime | Merlin++/IonBunch.cpp:26-29 | an ion bunch reports no lifetime (0) |
| IonBunches.IonBunch.IsStable | Merlin++/IonBunch.cpp:31-34 | an ion bunch always reports its particles stable |
| IonBunches.IonBunch.GetParticleCharge | Merlin++/IonBunch.cpp:36-39 | the stored ion charge Qp, distinct from the macro charge (no contract) |
| IonBunches.IonBunch.MassMeVScales | Merlin++/IonBunch.cpp:21-24 | the MeV mass is linear in the mass: k times the mass gives k times the MeV mass |
| ElectronBunches.ElectronInfoIsRegistered | Merlin++/ElectronBunch.h:75 | the electron species is the registry's "e" entry, charge sign -1 |
| ElectronBunches.ElectronBunch.FromArray | Merlin++/ElectronBunch.h:25-33 | takes over the caller's particles, leaving that array empty; binds the electron species; allocates the six-entry tally |
| ElectronBunches.ElectronBunch.FromStream | Merlin++/ElectronBunch.h:35-41 | the particles read go to the base bunch; binds the electron species |
| ElectronBunches.ElectronBunch.Empty | Merlin++/ElectronBunch.h:43-51 | no particles; macro charge Qm, default 1; binds the electron species |
| ElectronBunches.ElectronBunch.Generated | Merlin++/ElectronBunch.h:53-57 | generated population, optional filter (default none); binds the electron species |
| ElectronBunches.ElectronBunch.Set | Merlin++/ElectronBunch.h:59-64 | every tally entry becomes 0 and nothing else changes |
| MuonBunches.MuonInfo | Merlin++/MuonBunch.h:31 | the bound species is the registry's "muon-" entry: muon mass, charge -1 |
| MuonBunches.MuonBunch.FromArray | Merlin++/MuonBunch.h:27-33 | takes over the caller's particles, leaving that array empty; binds "muon-"; allocates the six-entry tally |
| MuonBunches.MuonBunch.FromStream | Merlin++/MuonBunch.h:35-41 | the particles read go to the base bunch; binds "muon-" |
| MuonBunches.MuonBunch.Empty | Merlin++/MuonBunch.h:43-49 | no particles; macro charge Qm, default 1; binds "muon-" |
| MuonBunches.MuonBunch.Generated | Merlin++/MuonBunch.h:51-55 | generated population, optional filter (default none); binds "muon-" |
| MuonBunches.MuonBunch.Set | Merlin++/MuonBunch.h:57-62 | every tally entry becomes 0 and nothing else changes |
| MadTable.GetD | Merlin++/MADInterface.cpp:137 | a numeric read succeeds exactly when the row has the column and gives its value; otherwise it is a missing-column error naming that column |
| MadTable.DataTable.constructor | Merlin++/MADInterface.cpp:113 | the table holds the rows given |
| MadTable.DataTable.SetKeyword | Merlin++/MADInterface.cpp:213 | only the keyword of the one row changes |
| MadTable.CharAt | Merlin++/MADInterface.cpp:260 | reading `name[1]` of a C++ string: the character at that index, or the terminating NUL when the name is shorter, so a one-letter name never has `_` at index 1 (no contract) |
| Components.Length | Merlin++/MADInterface.cpp:184 | the length `GetLength` adds to z: a marker adds nothing, an SWRF structure adds ncells half-wavelengths c/f/2, every other component its own length (no contract; used by SumLengths and the placement contracts) |
| TypeFactory.Fact | Merlin++/MADInterface.cpp:44-52 | n! is at least 1 |
| TypeFactory.FallingTimesFact | Merlin++/MADInterface.cpp:44-52 | the product the loop has built down to m, times m!, is n! |
| TypeFactory.Factorial | Merlin++/MADInterface.cpp:44-52 | returns n! for every n >= 0; a negative n is returned unchanged |
| TypeFactory.DriftInstance | Merlin++/MADInterface.cpp:385-395 | a drift row with length L gives nothing when L = 0 and otherwise exactly one drift of that name, so the lengths always sum to L |
| TypeFactory.Bend | Merlin++/MADInterface.cpp:397-459 | a sector bend of non-zero length L whose curvature times L is the angle, whose field times L is brho times the angle, whose quadrupole term is present exactly when K1L is non-zero and then times L gives brho times K1L, and whose pole faces carry E1 and E2 |
| TypeFactory.RBendInstance | Merlin++/MADInterface.cpp:397-425 | succeeds exactly when its columns are present and L is non-zero; gives one sector bend with no sextupole term, whose fields and pole faces follow the row and brho, and with the row's tilt |
| TypeFactory.SBendInstance | Merlin++/MADInterface.cpp:426-459 | as the RBEND rule, except that a sextupole term is present exactly when K2L is non-zero, scaled by brho/L |
| TypeFactory.SextupoleTerm | Merlin++/MADInterface.cpp:442-443 | the SBEND sextupole term is present exactly when K2L is non-zero, and then times 2L gives brho times K2L |
| TypeFactory.ThickInstance | Merlin++/MADInterface.cpp:460-509 | the quadrupole, skew quadrupole, sextupole, skew sextupole and octupole rules: succeed exactly when L and the order's coefficient are present and L is non-zero; give one magnet of that kind and name, with length L |
| TypeFactory.SolenoidInstance | Merlin++/MADInterface.cpp:578-588 | succeeds exactly when L and KS are present and L is non-zero; one solenoid of length L whose field times L equals brho times KS |
| TypeFactory.CoefficientScales | Merlin++/MADInterface.cpp:526 | the coefficient times L times n! gives back k times brho |
| TypeFactory.CoefficientsUpTo | Merlin++/MADInterface.cpp:520-526 | the coefficients of orders 0..n-1 exist exactly when all those columns are present; each is the order's scaled coefficient; any failure is a missing column |
| TypeFactory.CoefficientScalesBack | Merlin++/MADInterface.cpp:520-526 | every stored coefficient is 0 for a zero column, and otherwise times the scale length times n! gives back k times brho |
| TypeFactory.CoefficientsFailAt | Merlin++/MADInterface.cpp:520-525 | the first missing coefficient column is the error of every longer read |
| TypeFactory.MultipoleInstance | Merlin++/MADInterface.cpp:510-531 | succeeds exactly when L and K0L..K4L are present; one rectangular multipole of length L whose five coefficients are scaled by brho/L/n!, with L taken as 1 when it is 0 |
| TypeFactory.CoefficientByFactorial | Merlin++/MADInterface.cpp:526 | the loop's division by factorial(n) equals the scaled coefficient |
| TypeFactory.MultipoleField | Merlin++/MADInterface.cpp:519-526 | the coefficient loop computes exactly the specified coefficients, with the length replaced by 1 when it is 0, and fails on the first missing column |
| TypeFactory.YCorInstance | Merlin++/MADInterface.cpp:532-539 | one zero-strength vertical corrector of length L |
| TypeFactory.XCorInstance | Merlin++/MADInterface.cpp:540-547 | one zero-strength horizontal corrector of length L |
| TypeFactory.KickScale | Merlin++/MADInterface.cpp:555-558 | the kick scale times L, or times 1 when L <= 0, gives brho |
| TypeFactory.VKickerInstance | Merlin++/MADInterface.cpp:548-562 | one vertical corrector of length L whose strength times L (1 when L <= 0) equals brho times VKICK |
| TypeFactory.HKickerInstance | Merlin++/MADInterface.cpp:563-577 | one horizontal corrector of length L whose strength times L (1 when L <= 0) equals minus brho times HKICK |
| TypeFactory.KickerSigns | Merlin++/MADInterface.cpp:548-577 | equal kicks give horizontal and vertical strengths of opposite sign |
| TypeFactory.HalfWavelength | Merlin++/MADInterface.cpp:638-639 | half the RF wavelength c/(FREQ·MHz)/2 for a frequency given in MHz (no contract; used by the cavity rules' contracts) |
| TypeFactory.CosinePhase | Merlin++/MADInterface.cpp:643-644 | the LAG in turns becomes a phase in radians a quarter turn behind, for a cosine-like field |
| TypeFactory.RFCavityInstance | Merlin++/MADInterface.cpp:627-655 | succeeds exactly when L, FREQ, LAG and VOLT are present and FREQ and L are non-zero, and then gives exactly the one standing-wave structure that TypeFactory.Cavity describes |
| TypeFactory.Cavity | Merlin++/MADInterface.cpp:627-655 | a standing-wave structure at FREQ·MHz with phase CosinePhase(LAG), whose cell count is L over the half-wavelength rounded to nearest, whose length is that many half-wavelengths and so within half a cell of L, and whose gradient times L equals the voltage in MV |
| TypeFactory.RoundedCavityLength | Merlin++/MADInterface.cpp:601-602 | the rounded cell count gives a structure length within half a half-wavelength of L |
| TypeFactory.CavityLengthWarning | Merlin++/MADInterface.cpp:646 | the diagnostic condition: a structure length more than 0.1% over L; for L = 0 only a positive length warns (no contract; its properties are the lemmas below) |
| TypeFactory.CavityWarningOneSided | Merlin++/MADInterface.cpp:641-650 | the length warning is raised exactly when the cells are more than 0.1% longer than the element, never when they are shorter |
| TypeFactory.RFCavityWarns | Merlin++/MADInterface.cpp:640-650 | the RFCAVITY check applied to the rounded cells' length ncells·λ/2 (no contract) |
| TypeFactory.CavityWarnsOnItsLength | Merlin++/MADInterface.cpp:641-652 | the RFCAVITY check compares exactly the length of the structure the rule builds with L |
| TypeFactory.CavityWarnsOnlyWhenShort | Merlin++/MADInterface.cpp:646-650 | since rounding moves the length by at most half a cell, the RFCAVITY check can fire only on an element shorter than 500 half-wavelengths |
| TypeFactory.SingleCellWarns | Merlin++/MADInterface.cpp:612-616 | the single-cell check applied to one half-wavelength (no contract) |
| TypeFactory.SingleCellWarnsWhenShort | Merlin++/MADInterface.cpp:612-616 | for L > 0 the single-cell check fires exactly when the half-wavelength is more than 0.1% longer than L |
| TypeFactory.RFCavitySingleCellInstance | Merlin++/MADInterface.cpp:589-626 | succeeds exactly when L, FREQ, LAG and VOLT are present and FREQ is non-zero, and then gives exactly the pair that TypeFactory.SingleCell describes |
| TypeFactory.SingleCell | Merlin++/MADInterface.cpp:600-622 | one structure of one cell, one half-wavelength long, at FREQ·MHz with phase CosinePhase(LAG) and gradient times λ/2 equal to the voltage in MV, then a drift Drift_NAME of L − λ/2; together exactly L; its length check compares λ/2 with L |
| TypeFactory.CrabMarkerInstance | Merlin++/MADInterface.cpp:656-666 | one crab marker with the row's L, MUX and MUY |
| TypeFactory.CrabRFInstance | Merlin++/MADInterface.cpp:667-675 | one transverse RF structure of length L |
| TypeFactory.CollimatorInstance | Merlin++/MADInterface.cpp:676-684 | one collimator of length L |
| TypeFactory.HELInstance | Merlin++/MADInterface.cpp:685-692 | one hollow electron lens of length L |
| TypeFactory.StartsWithWS | Merlin++/MADInterface.cpp:699 | the name has at least two characters and begins with "WS" (a shorter name has a shorter prefix, which never equals "WS") (no contract) |
| TypeFactory.MonitorInstance | Merlin++/MADInterface.cpp:693-704 | one monitor of length L: a profile monitor exactly when the name starts with WS, otherwise a BPM |
| TypeFactory.MarkerInstance | Merlin++/MADInterface.cpp:705-711 | always exactly one marker of the row's name |
| TypeFactory.Apply | Merlin++/MADInterface.cpp:385-711 | a rule fails only by a missing column or a non-finite field |
| TypeFactory.Instance | Merlin++/MADInterface.cpp:713-724 | an unregistered keyword builds nothing; a registered one builds what its rule builds |
| TypeFactory.GetInstance | Merlin++/MADInterface.cpp:713-724 | the dispatch reads the row's current keyword and returns what the registry specifies |
| TypeFactory.RegisteredKeywords | Merlin++/MADInterface.cpp:728-749 | the registry holds exactly the 22 keywords registered at start-up |
| TypeFactory.UnregisteredBuildsNothing | Merlin++/MADInterface.cpp:713-749 | NOTIMPLEMENTED and DECAPOLE are not registered, so they build nothing |
| MultipoleClassifier.ScanFrom | Merlin++/MADInterface.cpp:231-245 | a completed scan of orders n..4 has read every normal column and seen no non-zero skew; its count is the number of non-zero normal coefficients and its lowest is the lowest such order; a skew stop means some skew coefficient is non-zero |
| MultipoleClassifier.MultipoleType | Merlin++/MADInterface.cpp:226-255 | the classification is one of the eight keywords, and it fails only on a missing column |
| MultipoleClassifier.ScanSucceeds | Merlin++/MADInterface.cpp:233-238 | with every normal column present the scan cannot fail |
| MultipoleClassifier.ScanFindsSkew | Merlin++/MADInterface.cpp:238-241 | a non-zero skew coefficient at any order stops the scan |
| MultipoleClassifier.ScanSettled | Merlin++/MADInterface.cpp:233-241 | an early exit at order n is the result of the whole scan |
| MultipoleClassifier.CountAtLeastOne | Merlin++/MADInterface.cpp:234-237 | one non-zero normal coefficient makes the count positive |
| MultipoleClassifier.CountAtLeastTwo | Merlin++/MADInterface.cpp:234-237 | two non-zero normal coefficients make the count at least two |
| MultipoleClassifier.CountExactlyOne | Merlin++/MADInterface.cpp:234-237 | exactly one non-zero normal coefficient gives count one |
| MultipoleClassifier.CountNone | Merlin++/MADInterface.cpp:234-237 | all normal coefficients zero gives count zero |
| MultipoleClassifier.SkewIsNotImplemented | Merlin++/MADInterface.cpp:238-241 | a non-zero skew coefficient gives NOTIMPLEMENTED, whatever the normal coefficients are |
| MultipoleClassifier.AllZeroIsDrift | Merlin++/MADInterface.cpp:243-246 | with no skew and all normal coefficients zero the row is a DRIFT, even when L is non-zero |
| MultipoleClassifier.ThinIsMultipole | Merlin++/MADInterface.cpp:247-248 | some non-zero normal coefficient, no skew and L = 0 give MULTIPOLE |
| MultipoleClassifier.SingleOrderMagnet | Merlin++/MADInterface.cpp:249-252 | exactly one non-zero coefficient, of order n, with L non-zero gives the n-th of SBEND, QUADRUPOLE, SEXTUPOLE, OCTUPOLE, DECAPOLE |
| MultipoleClassifier.SeveralOrdersNotImplemented | Merlin++/MADInterface.cpp:253-254 | two or more non-zero coefficients with L non-zero give NOTIMPLEMENTED |
| MultipoleClassifier.GetMultipoleType | Merlin++/MADInterface.cpp:226-255 | the downward scan loop returns exactly the specified classification |
| LatticeBuilder.Rigidity | Merlin++/MADInterface.cpp:131 | brho times eV times c gives back the momentum, and a positive momentum has a positive rigidity |
| LatticeBuilder.RBendKeyword | Merlin++/MADInterface.cpp:215-216 | RBEND becomes SBEND exactly when K0L is non-zero; the K0L read fails when the column is missing |
| LatticeBuilder.OverriddenKeyword | Merlin++/MADInterface.cpp:207-224 | MULTIPOLE is classified; LCAV becomes RFCAVITY, or RFCAVITY_SingleCell in single-cell mode; both collimators become COLLIMATOR; RBEND follows its K0L rule; RFCAVITY becomes single-cell in that mode; any other keyword becomes DRIFT when it is a drift type and otherwise stays unchanged |
| LatticeBuilder.OpensFrame | Merlin++/MADInterface.cpp:257-270 | a LINE name opens a frame, and later closes one, exactly when MAD structures are honoured or it has `_` at index 1; ConstructNewFrame returns early otherwise, and EndFrame at line 309 makes the same test (no contract; used by FrameFor, EndFrame and LineStep) |
| LatticeBuilder.FrameFor | Merlin++/MADInterface.cpp:257-305 | a name with `_` at index 1 opens an F, S, G or M frame named by the rest of the name, and any other leading letter is an error; a name without it opens a sequence frame only when MAD structures are honoured |
| LatticeBuilder.ConstructNewFrame | Merlin++/MADInterface.cpp:257-305 | a qualifying name adds one open frame and an entry for it; any other name leaves the constructor unchanged |
| LatticeBuilder.EndFrame | Merlin++/MADInterface.cpp:307-322 | a qualifying name closes the innermost open frame, and is an error when none is open; any other name changes nothing |
| LatticeBuilder.LineStep | Merlin++/MADInterface.cpp:146-164 | a LINE row leaves the momentum, brho and z alone, and in a flat lattice it changes nothing; otherwise a name on top of the stack is popped, and when it opens frames exactly one FrameEnd is appended and the innermost open frame closed (failing as NoOpenFrame of that name exactly when none is open); any other name is pushed, and when it opens frames exactly one entry and one open frame are added after the old ones (failing exactly when its frame code is unknown) |
| LatticeBuilder.SRdE | Merlin++/MADInterface.cpp:101-106 | the energy an electron radiates: C_gamma/(2π)·E⁴·h²·len, with the fourth power written out (no contract; SRdENonNegative is its property) |
| LatticeBuilder.SRdENonNegative | Merlin++/MADInterface.cpp:101-106 | the radiated energy over a non-negative length is non-negative |
| LatticeBuilder.Radiate | Merlin++/MADInterface.cpp:174-178 | the debit needs ANGLE and a non-zero length; it changes only the momentum, recomputes brho from it, and never raises the momentum over a positive length |
| LatticeBuilder.Place | Merlin++/MADInterface.cpp:180-185 | placing components appends one entry each after the earlier entries, advances z by the sum of their lengths, and keeps momentum, brho and frames |
| LatticeBuilder.PlacedAt | Merlin++/MADInterface.cpp:180-185 | the i-th placed component is tagged with the start z plus the lengths of the components before it |
| LatticeBuilder.Step | Merlin++/MADInterface.cpp:135-186 | a row without L fails; a zero-length row of an ignorable original keyword is skipped; only a bend with radiation on changes the momentum and brho; only LINE rows touch the frames, and only they can end a frame that is not open; a LINE row that is not skipped is exactly the LINE step on its name; an SROT row that is not skipped appends exactly one rotation frame of its name and length; any other row fails with the keyword rewrite's error or is exactly the component step on the rewritten keyword |
| LatticeBuilder.ComponentStep | Merlin++/MADInterface.cpp:172-185 | the factory runs first, on the rewritten row with the brho from before the row, and its error is the row's error; the step succeeds whenever the factory does and, for a radiating bend, ANGLE is present and L is non-zero; the components it builds are placed in order, each at the start z plus the lengths before it; only a bend with radiation on debits SRdE(ANGLE/L, L, p) from the momentum and then recomputes brho; the frames are kept |
| LatticeBuilder.RadiateIfBend | Merlin++/MADInterface.cpp:174-178 | the debit applies exactly to an original SBEND or RBEND row with radiation on; z, the model and the stack are untouched |
| LatticeBuilder.IsBend | Merlin++/MADInterface.cpp:174 | the radiation test is on the keyword the row arrived with, SBEND or RBEND, before the rewrite (no contract; used by Step, ComponentStep and RadiateIfBend) |
| LatticeBuilder.PlaceAll | Merlin++/MADInterface.cpp:180-185 | placing a run appends it in order after the existing entries, every component at the start z plus the lengths before it, and advances z by their total |
| LatticeBuilder.Build | Merlin++/MADInterface.cpp:135-190 | the rows applied in order by Step from a start state, the first failing row ending the build with its error (no contract; ConstructModel is proved to reach it and BuilderProperties states what it keeps) |
| LatticeBuilder.Start | Merlin++/MADInterface.cpp:121-131 | a build starts from a fresh model constructor with brho the rigidity of the current momentum, keeping z and the LINE stack (no contract) |
| LatticeBuilder.BuildOneMore | Merlin++/MADInterface.cpp:135-190 | building one more row is one more step from the state the shorter build reached |
| LatticeBuilder.BuildStopsAt | Merlin++/MADInterface.cpp:135-190 | the first failing row ends the build with its error |
| BuilderProperties.StepKeepsRigidity | Merlin++/MADInterface.cpp:174-178 | after every row brho is still the rigidity of the current momentum |
| BuilderProperties.BuildKeepsRigidity | Merlin++/MADInterface.cpp:131-178 | after the whole build brho is the rigidity of the final momentum |
| BuilderProperties.BuildWithoutRadiation | Merlin++/MADInterface.cpp:174 | without synchrotron radiation the momentum and brho never change |
| BuilderProperties.StepNeverGainsMomentum | Merlin++/MADInterface.cpp:174-178 | a row of non-negative length never raises the momentum |
| BuilderProperties.BuildNeverGainsMomentum | Merlin++/MADInterface.cpp:135-186 | over rows of non-negative length the momentum never rises |
| BuilderProperties.RadiatingBendUsesOldRigidity | Merlin++/MADInterface.cpp:172-178 | for a radiating bend row rewritten to SBEND, the placed bend has field times L equal to the OLD brho times ANGLE, while the row leaves with the momentum lowered by SRdE and brho the rigidity of that lowered momentum |
| BuilderProperties.BendPlacedWithOldRigidity | Merlin++/MADInterface.cpp:172-185 | the SBEND built for a bend row is one entry placed at the row's start z whose field times L is the pre-row brho times ANGLE |
| BuilderProperties.BendRowIsComponentStep | Merlin++/MADInterface.cpp:135-186 | a non-skipped RBEND or SBEND row rewritten to SBEND is the component step on SBEND, neither a LINE nor an SROT row |
| BuilderProperties.AppendEntryKeepsPositions | Merlin++/MADInterface.cpp:182-184 | appending a component at z and advancing z by its length keeps every entry at the start plus the lengths before it |
| BuilderProperties.PlaceKeepsPositions | Merlin++/MADInterface.cpp:180-185 | placing a row's components keeps every entry at its arc position |
| BuilderProperties.StepKeepsPositions | Merlin++/MADInterface.cpp:135-186 | every row keeps every entry at its arc position |
| BuilderProperties.LineStepKeepsPositions | Merlin++/MADInterface.cpp:146-164 | frame entries do not disturb the arc positions |
| BuilderProperties.BuildKeepsPositions | Merlin++/MADInterface.cpp:135-186 | after the build each component is at the start z plus the lengths placed before it |
| BuilderProperties.FrameDepth | Merlin++/MADInterface.cpp:260-270 | the frames a stack of valid names opens number as many as its qualifying names |
| BuilderProperties.PopKeepsFrames | Merlin++/MADInterface.cpp:151-155 | when the open frames match the stack, a LINE name equal to the top of the stack always succeeds: it is popped, one open frame fewer remains when the name opens frames, and the open frames still match the stack |
| BuilderProperties.PushKeepsFrames | Merlin++/MADInterface.cpp:157-161 | when the open frames match the stack, any other LINE name can fail only as an unknown frame code of that name; on success it is pushed, one more frame is open when the name opens frames, and the open frames still match the stack |
| BuilderProperties.LineStepKeepsFrames | Merlin++/MADInterface.cpp:146-164 | when the open frames match the stack, a LINE row never ends a frame that is not open, and keeps them matching |
| BuilderProperties.StepKeepsFrames | Merlin++/MADInterface.cpp:135-186 | every row keeps the open frames matching the stack and never ends a frame that is not open |
| BuilderProperties.BuildKeepsFrames | Merlin++/MADInterface.cpp:135-186 | the whole build keeps the open frames matching the stack and never ends a frame that is not open |
| BuilderProperties.FreshBuildNeverLacksFrame | Merlin++/MADInterface.cpp:114-164 | from an empty stack and a fresh constructor the build never ends a frame that is not open |
| BuilderProperties.LinePairRestores | Merlin++/MADInterface.cpp:146-164 | a LINE name followed by the same name restores the stack and the open-frame depth |
| BuilderProperties.FreshBuild | Merlin++/MADInterface.cpp:108-190 | a fresh build that succeeds ends with current brho, every component at its arc position, and as many open frames as qualifying names left on the stack |
| MadInterfaces.MADInterface.constructor | Merlin++/MADInterface.cpp:70-91 | all four flags false, z 0, no stack, no constructor, the default drift types, and RCOLLIMATOR as the only zero-length type |
| MadInterfaces.MADInterface.TreatTypeAsDrift | Merlin++/MADInterface.cpp:380-383 | adds one keyword to the drift types and nothing else |
| MadInterfaces.MADInterface.IgnoreZeroLengthType | Merlin++/MADInterface.cpp:375-378 | adds one keyword to the zero-length types and nothing else |
| MadInterfaces.MADInterface.TypeOverrides | Merlin++/MADInterface.cpp:207-224 | returns the specified rewrite of the row's original keyword, stores it as that row's keyword, and changes no other row or column |
| MadInterfaces.MADInterface.PlaceComponents | Merlin++/MADInterface.cpp:180-185 | appends and advances z exactly as the placement specification does |
| MadInterfaces.MADInterface.ApplyRow | Merlin++/MADInterface.cpp:135-186 | processing one row leaves the object and table in the state the one-row specification gives, or fails with its error |
| MadInterfaces.MADInterface.LineRow | Merlin++/MADInterface.cpp:146-164 | the stack push or pop and the frame change are those of the LINE specification |
| MadInterfaces.MADInterface.ComponentRow | Merlin++/MADInterface.cpp:172-185 | building, radiating and placing one row's components matches the specification |
| MadInterfaces.MADInterface.ConstructModel | Merlin++/MADInterface.cpp:108-205 | the loop over all rows ends in the state the fold specifies (momentum, z, stack and entries), releases the constructor on success, and otherwise fails with the error of the first row that fails |

## Left out

- File and stream handling: reading the TFS table, opening the file and checking the stream are I/O. The table is given as a sequence of rows.
- AppendModel and append mode, GetModel and GetModelConstructor are left out. They are ownership plumbing around the model constructor; the model only records that the constructor is released after a successful build.
- MADInterface.h is not part of this model. The flag defaults (all false) and the initial z of 0 are taken as the header's evident defaults.
- utils.h is not part of this model. `Round` is taken as round-half-away-from-zero.
- The PhysicalConstants and PhysicalUnits headers are not part of this model. They become named real constants.
- The concrete component classes (SectorBend, SWRFStructure, Quadrupole, the frames and so on) are not part of this model. Each becomes a datatype value carrying its kind, name, length and field parameters. The SWRF structure's length is taken as its number of cells times half a wavelength.
- AcceleratorModelConstructor is not part of this model. It is a value holding the entries and the open frames; ending a frame when none is open is an error.
- Logging, warnings and reports are output only: `Log`, `cout`, MERLIN_ERR, ReportStatistics and the bunches' `report()`. The cavity length checks are kept as the predicates they print on (`RFCavityWarns`, `SingleCellWarns`); the rules do not return them.
- IEEE arithmetic is modelled over exact reals. A division by a zero length becomes a `NonFiniteField` error rather than an infinity or a NaN, and `pow` is written out as a product.
- new/delete of components, of the constructor and of the factory's objects is left out (memory management).
- BunchFilter's Apply, the particle distribution generators and the ParticleBunch base class's storage are not part of this model. Only the array-emptying postcondition stated in the constructors' documentation is kept.
- MadInterfaces.MADInterface.ConstructModel: after an error, only the error is stated, not the partly updated fields.
- MadInterfaces.MADInterface.ConstructModel: every build that is not an append starts from a fresh model constructor. In the source, after a build that ended by an exception, the constructor is still held; the next call deletes it without clearing the pointer (lines 121-124), so the allocation at 125-128 is skipped and the build appends to freed memory. The model does not reproduce this use after free.
- MultipoleClassifier.MultipoleType: a skew column is tested per row rather than once for the whole table.
- The tracking and integrators of the ion test are numerical physics outside the builder.
