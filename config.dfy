/** The model hyper-parameters and training cap of server_src/config.py. */
module Config {
  /** Ticks of history one prediction looks at. */
  const INPUT_WINDOW: nat := 2000
  /** Ticks of future one prediction covers. */
  const TOTAL_PREDICT_TICKS: nat := 2000
  /** One predicted point per this many future ticks. */
  const PREDICT_STRIDE: nat := 100
  const OUTPUT_STEPS: nat := TOTAL_PREDICT_TICKS / PREDICT_STRIDE
  /** At most this many recent prices are fetched for training. */
  const TRAIN_LIMIT: nat := 500000
}
