/**
 * The runtime-permission decisions of MainActivity: whether the three
 * permissions it asks for are held, and how it reacts to the user's answers.
 */
module Permissions {

  /** The request code passed to requestPermissions. */
  const PERMISSION_REQUEST_CODE: int := 1970

  /** Android's PackageManager.PERMISSION_GRANTED; every other value is a denial. */
  const PERMISSION_GRANTED: int := 0

  /** What onRequestPermissionsResult does. */
  datatype Reaction =
    | ShowSnackBar  // the user refused everything: show the notice
    | Recreate      // at least one permission granted: restart the activity
    | NoReaction    // another request, or not three answers: only logging

  /** onRequestPermissionsResult. */
  function OnRequestPermissionsResult(requestCode: int, grantResults: seq<int>): (r: Reaction)
    ensures r == ShowSnackBar <==>
      requestCode == PERMISSION_REQUEST_CODE && |grantResults| == 3 &&
      forall i :: 0 <= i < 3 ==> grantResults[i] != PERMISSION_GRANTED
    ensures r == Recreate <==>
      requestCode == PERMISSION_REQUEST_CODE && |grantResults| == 3 &&
      exists i :: 0 <= i < 3 && grantResults[i] == PERMISSION_GRANTED
    ensures r == NoReaction <==> requestCode != PERMISSION_REQUEST_CODE || |grantResults| != 3
  {
    if requestCode != PERMISSION_REQUEST_CODE || |grantResults| != 3 then NoReaction
    else
      var fineLocAccepted := grantResults[0] == PERMISSION_GRANTED;
      var coarseLocAccepted := grantResults[1] == PERMISSION_GRANTED;
      var vibrateAccepted := grantResults[2] == PERMISSION_GRANTED;
      if !fineLocAccepted && !coarseLocAccepted && !vibrateAccepted then ShowSnackBar
      else Recreate
  }

  /** checkPermission, given the status of ACCESS_FINE_LOCATION,
      ACCESS_COARSE_LOCATION and VIBRATE in that order. When it holds, the
      same three answers to a request recreate the activity. */
  function CheckPermission(fine: int, coarse: int, vibrate: int): (granted: bool)
    ensures granted ==> OnRequestPermissionsResult(PERMISSION_REQUEST_CODE, [fine, coarse, vibrate]) == Recreate
  {
    fine == PERMISSION_GRANTED && coarse == PERMISSION_GRANTED && vibrate == PERMISSION_GRANTED
  }

  /** The snack bar is shown only when none of the three is granted, so
      checkPermission is then false whatever the order of the answers. */
  lemma SnackBarOnlyWithoutPermission(requestCode: int, grantResults: seq<int>)
    requires OnRequestPermissionsResult(requestCode, grantResults) == ShowSnackBar
    ensures |grantResults| == 3
    ensures !CheckPermission(grantResults[0], grantResults[1], grantResults[2])
  {
  }

  /** A partial grant also recreates the activity although checkPermission
      is still false, so the recreated activity asks again. */
  lemma PartialGrantRecreatesWithoutPermission(denied: int)
    requires denied != PERMISSION_GRANTED
    ensures OnRequestPermissionsResult(PERMISSION_REQUEST_CODE, [PERMISSION_GRANTED, denied, denied]) == Recreate
    ensures !CheckPermission(PERMISSION_GRANTED, denied, denied)
  {
  }
}
