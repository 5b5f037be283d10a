/** `startServer` and its private `targetStringToTarget` in the firebase
    package: the base serve target is parsed, then the Nx executor's results
    are consumed until one reports failure. */
module FirebaseServer {
  import opened Wrappers
  import opened Text
  import TargetString


  /** This package's copy of `targetStringToTarget`. */
  function ParseBaseTarget(s: string): (r: Result<TargetString.Target>)
  {
    if ' ' in s then
      match TargetString.FindWithColon(Split(s, ' '))
      case None => Err(TypeError(ReadIncludesOfUndefined))
      case Some(token) => Ok(TargetString.Destructure(token))
    else if ':' in s then Ok(TargetString.Destructure(s))
    else Err(Error("Unable to parse base serve target"))
  }

  /** Both copies agree wherever either succeeds; they differ only in how they
      fail: a string with spaces and no ':' makes this copy fail at run time
      instead of raising the parse error. */
  lemma AgreesWithTargetString(s: string)
    ensures ParseBaseTarget(s).Ok? <==> TargetString.Parse(s).Ok?
    ensures ParseBaseTarget(s).Ok? ==> ParseBaseTarget(s) == TargetString.Parse(s)
    ensures ParseBaseTarget(s).Err? ==>
      ParseBaseTarget(s).failure ==
        if ' ' in s then TypeError(ReadIncludesOfUndefined)
        else Error("Unable to parse base serve target")
  {
    TargetString.TokenWithColon(s);
  }

  /** Parsing fails exactly for strings without a ':'. */
  lemma ParseBaseTargetFails(s: string)
    ensures ParseBaseTarget(s).Err? <==> ':' !in s
  {
    TargetString.TokenWithColon(s);
  }

  /** `startServer`: parses the target, then reads the executor's results in
      order and stops after the first unsuccessful one. Returns how many
      results were consumed. */
  method StartServer(targetString: string, results: seq<bool>) returns (r: Result<nat>)
    ensures ParseBaseTarget(targetString).Err? ==> r == Err(ParseBaseTarget(targetString).failure)
    ensures ParseBaseTarget(targetString).Ok? ==> r.Ok?
    ensures r.Ok? ==> r.value <= |results|
    ensures r.Ok? ==> forall i :: 0 <= i < r.value - 1 ==> results[i]
    ensures r.Ok? && r.value < |results| ==> r.value > 0 && !results[r.value - 1]
  {
    var target := ParseBaseTarget(targetString);
    if target.Err? {
      return Err(target.failure);
    }
    var n := 0;
    while n < |results|
      invariant n <= |results|
      invariant forall i :: 0 <= i < n ==> results[i]
    {
      var success := results[n];
      n := n + 1;
      if !success {
        return Ok(n);
      }
    }
    return Ok(n);
  }
}
