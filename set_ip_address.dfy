// samples/Linux/setIpAddress.py: `is_subnet_matches`. The addresses are octets;
// the camera's NIC address and mask are the 4-byte arrays of `_CameraIdInfo`.

module SetIpAddress {
  import opened Outcomes
  import opened PxLApi

  /**
   * Reference definition of the check: an IndexError when the mask is shorter than the
   * address; otherwise the octets are compared in order, the first difference answers
   * `false`, and comparing past the NIC's four octets raises IndexError.
   */
  function SubnetMatches(ip: seq<bv8>, mask: seq<bv8>, info: CameraIdInfo): (r: Outcome<bool>)
    requires |info.nicIpAddress| == 4 && |info.nicIpMask| == 4
  {
    if |mask| < |ip| then Raised(IndexError)
    else match FirstSubnetDifference(ip, mask, info, 0)
      case Some(i) => if i < 4 then Normal(false) else Raised(IndexError)
      case None => Normal(true)
  }

  /** Octet `i` of the camera's subnet address equals the NIC's. */
  predicate OctetAgrees(ip: seq<bv8>, mask: seq<bv8>, info: CameraIdInfo, i: nat)
    requires i < |ip| && i < |mask| && i < |info.nicIpAddress| && i < |info.nicIpMask|
  {
    ip[i] & mask[i] == info.nicIpAddress[i] & info.nicIpMask[i]
  }

  /** The first `i >= from` where the camera's subnet octet differs from the NIC's, or 4 if `|ip| > 4` and none before. */
  function FirstSubnetDifference(ip: seq<bv8>, mask: seq<bv8>, info: CameraIdInfo, from: nat): (d: Option<nat>)
    requires |ip| <= |mask|
    requires |info.nicIpAddress| == 4 && |info.nicIpMask| == 4
    requires from <= 4
    decreases 4 - from
    ensures d.Some? ==> from <= d.value <= 4 && d.value < |ip|
    ensures d.Some? && d.value < 4 ==> !OctetAgrees(ip, mask, info, d.value)
    ensures forall i :: from <= i < (if d.Some? then d.value else |ip|) && i < 4 ==> OctetAgrees(ip, mask, info, i)
    ensures d.None? ==> |ip| <= 4
  {
    if from >= |ip| then None
    else if from == 4 then Some(4)
    else if !OctetAgrees(ip, mask, info, from) then Some(from)
    else FirstSubnetDifference(ip, mask, info, from + 1)
  }

  /** `is_subnet_matches(cameraIpAddress, cameraSubnetMask, cameraIdInfo)`, with its three loops. */
  method IsSubnetMatches(cameraIpAddress: seq<bv8>, cameraSubnetMask: seq<bv8>, cameraIdInfo: CameraIdInfo)
    returns (r: Outcome<bool>)
    requires |cameraIdInfo.nicIpAddress| == 4 && |cameraIdInfo.nicIpMask| == 4
    ensures r == SubnetMatches(cameraIpAddress, cameraSubnetMask, cameraIdInfo)
  {
    var cameraSubnetAddress: seq<bv8> := [];
    var nicSubnetAddress: seq<bv8> := [];
    for i := 0 to |cameraIpAddress|
      invariant |cameraSubnetAddress| == i
      invariant i <= |cameraSubnetMask|
      invariant forall k :: 0 <= k < i ==> cameraSubnetAddress[k] == cameraIpAddress[k] & cameraSubnetMask[k]
    {
      if i >= |cameraSubnetMask| {
        return Raised(IndexError);
      }
      cameraSubnetAddress := cameraSubnetAddress + [cameraIpAddress[i] & cameraSubnetMask[i]];
    }
    var nic := cameraIdInfo.nicIpAddress;
    var nicMask := cameraIdInfo.nicIpMask;
    for i := 0 to |nic|
      invariant |nicSubnetAddress| == i
      invariant forall k :: 0 <= k < i ==> nicSubnetAddress[k] == nic[k] & nicMask[k]
    {
      nicSubnetAddress := nicSubnetAddress + [nic[i] & nicMask[i]];
    }
    for i := 0 to |cameraIpAddress|
      invariant i <= 4
      invariant FirstSubnetDifference(cameraIpAddress, cameraSubnetMask, cameraIdInfo, 0)
             == FirstSubnetDifference(cameraIpAddress, cameraSubnetMask, cameraIdInfo, i)
    {
      if i >= |nicSubnetAddress| {
        return Raised(IndexError);
      }
      if cameraSubnetAddress[i] != nicSubnetAddress[i] {
        return Normal(false);
      }
    }
    return Normal(true);
  }

  /** An address of at most four octets matches exactly when every octet agrees under the two masks. */
  lemma SubnetMatchesMeaning(ip: seq<bv8>, mask: seq<bv8>, info: CameraIdInfo)
    requires |info.nicIpAddress| == 4 && |info.nicIpMask| == 4
    requires |ip| <= 4 && |ip| <= |mask|
    ensures SubnetMatches(ip, mask, info).Normal?
    ensures SubnetMatches(ip, mask, info).value <==>
      forall i :: 0 <= i < |ip| ==> OctetAgrees(ip, mask, info, i)
  {
  }

  /** The NIC's own address and mask are on the NIC's subnet. */
  lemma NicMatchesItself(info: CameraIdInfo)
    requires |info.nicIpAddress| == 4 && |info.nicIpMask| == 4
    ensures SubnetMatches(info.nicIpAddress, info.nicIpMask, info) == Normal(true)
  {
    SubnetMatchesMeaning(info.nicIpAddress, info.nicIpMask, info);
  }

  /** A fifth octet is compared only if the first four agree, and then the NIC list is too short. */
  lemma LongAddressRaises(ip: seq<bv8>, mask: seq<bv8>, info: CameraIdInfo)
    requires |info.nicIpAddress| == 4 && |info.nicIpMask| == 4
    requires |ip| > 4 && |ip| <= |mask|
    ensures SubnetMatches(ip, mask, info).Raised? <==>
      forall i :: 0 <= i < 4 ==> OctetAgrees(ip, mask, info, i)
  {
  }
}
