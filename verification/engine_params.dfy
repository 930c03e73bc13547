/** The parameter bundle the script hands to the primer engine for every site. */
module EngineParams {

  /** The engine's global settings. The GC, salt and DNA concentration settings are
      whole-number floats in the script and are kept here as integers. */
  datatype Params = Params(
    pickLeft: int, pickRight: int, pickInternal: int, numReturn: int,
    optSize: int, minSize: int, maxSize: int,
    optTm: int, minTm: int, maxTm: int,
    internalOptTm: int, internalMaxTm: int, internalMinTm: int,
    minGc: int, maxGc: int, maxPolyX: int,
    saltMonovalent: int, dnaConc: int, maxNsAccepted: int,
    maxSelfAny: int, maxSelfEnd: int, pairMaxComplAny: int, pairMaxComplEnd: int,
    productMin: int, productMax: int)

  /** The settings built from the amplicon size, its tolerance, the target melting
      temperature, the number of sets and the probe switch. */
  function DesignParams(ampliconSize: int, sizeBuffer: int, meltingTemperature: int,
                        numSets: int, probe: int): (p: Params)
    ensures p.pickLeft == 1 && p.pickRight == 1 && p.pickInternal == probe
    ensures p.numReturn == numSets && p.optTm == meltingTemperature
    ensures p.minSize < p.optSize < p.maxSize
    // the primer melting window is 3 degrees either side of the target
    ensures p.minTm < p.optTm < p.maxTm && p.optTm - p.minTm == 3 && p.maxTm - p.optTm == 3
    // the probe window is the primer window moved up by 5 degrees, so the probe's target
    // lies above the primers' upper limit while the two windows overlap by one degree
    ensures p.internalMinTm == p.minTm + 5 && p.internalOptTm == p.optTm + 5 && p.internalMaxTm == p.maxTm + 5
    ensures p.maxTm < p.internalOptTm && p.internalMinTm < p.maxTm
    // the product range is centred on the amplicon size with half-width sizeBuffer,
    // and is empty when the tolerance is negative (nothing checks it)
    ensures p.productMin + p.productMax == 2 * ampliconSize && p.productMax - p.productMin == 2 * sizeBuffer
    ensures p.productMin <= ampliconSize <= p.productMax <==> 0 <= sizeBuffer
  {
    Params(
      pickLeft := 1, pickRight := 1, pickInternal := probe, numReturn := numSets,
      optSize := 20, minSize := 17, maxSize := 25,
      optTm := meltingTemperature, minTm := meltingTemperature - 3, maxTm := meltingTemperature + 3,
      internalOptTm := meltingTemperature + 5,
      internalMaxTm := (meltingTemperature + 5) + 3,
      internalMinTm := (meltingTemperature + 5) - 3,
      minGc := 20, maxGc := 80, maxPolyX := 5,
      saltMonovalent := 50, dnaConc := 50, maxNsAccepted := 0,
      maxSelfAny := 12, maxSelfEnd := 8, pairMaxComplAny := 12, pairMaxComplEnd := 8,
      productMin := ampliconSize - sizeBuffer, productMax := ampliconSize + sizeBuffer)
  }
}
