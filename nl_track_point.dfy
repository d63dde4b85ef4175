/**
 * The `pointType` tag that distinguishes the kinds of `TrackPoint`
 * (src/helper/nl2park/track/custom-track.ts): roll, trigger, separator and
 * 4D-parameter points, and the untyped `'none'` point.
 */
module NoLimitsTrackPoint {
  datatype PointType = Roll | Trigger | Separator | Parameter4D | NoneType
}
