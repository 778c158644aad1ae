/**
 * The exceptions the solvers, parsers and frames can raise, one constructor per
 * kind. Any of them ends the current operation: the C# code never catches them.
 */
module Errors {

  datatype Error =
      /** CameraTrackException("Incompatible track file type") */
    | IncompatibleTrackType
      /** CameraTrackException("Unable to solve frame " + frame) */
    | UnresolvedFrame(frame: nat)
      /** NullReferenceException: a null array or a null line is dereferenced */
    | NullReference
      /** First(), Last() or Values[0] on an empty collection */
    | EmptyCollection
      /** IndexOutOfRangeException: a track line with too few fields */
    | IndexOutOfRange
      /** FormatException or OverflowException from one of the number parsers */
    | Format
      /** ArgumentException: SortedList.Add with a key that is already present */
    | DuplicateKey
      /** OverflowException from Convert.ToUInt64 */
    | Overflow
}
