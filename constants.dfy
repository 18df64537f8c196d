/** The named constants of lib/constants.ts that the modelled code reads. */
module Constants {
  /** `IMAGE_CONFIG.MAX_SIZE_BYTES`: 10 MB. */
  const MaxSizeBytes: nat := 10 * 1024 * 1024

  /** `EDIT_CONFIG.COST_PER_IMAGE`, in dollars; it is only passed through, never computed with. */
  const CostPerImage: real := 0.039

  /** `FAL_CONFIG.MODEL_NAME`. */
  const ModelName: string := "fal-ai/nano-banana/edit"

  /** `FAL_CONFIG.DEFAULT_OUTPUT_FORMAT`. */
  const DefaultOutputFormat: string := "jpeg"
}
